/** What every run of the order protocol guarantees. */
module ProtocolTheorems {
  import opened Basics
  import opened CommitDomain
  import opened CommitDecision
  import opened OrderingDomain
  import opened OrderingStore
  import Inventory = InventoryStore
  import opened CommitTheorems
  import opened Canonical
  import opened Protocol
  import opened ProtocolInvariant
  import opened ProtocolProofs
  import opened ProtocolExchange

  // ----- Exactly once -----

  /** What the movements of one operation did to a stock item. */
  ghost function MovedBy(inv: Inventory.Database, op: Id, id: Id): int {
    Moved(MovementsOf(inv.movements, op), id)
  }

  /** The verdict of a receipt, and what its operation moved, against the order's lines and the tables it was
      decided on. */
  ghost predicate ReceiptIsExact(inv: Inventory.Database, decidedOn: map<Id, Pos>, op: Id, lines: seq<Line>, id: Id) {
    && op in inv.receipts && op in decidedOn
    && var committed := inv.receipts[op].result.status.Committed?;
       && (committed <==> !CommitDecision.Rejected(decidedOn[op], lines))
       && MovedBy(inv, op, id) == (if committed then 0 - Demand(decidedOn[op], lines, id) else 0)
  }

  lemma ReceiptsAreExact(inv: Inventory.Database, decidedOn: map<Id, Pos>, outbox: map<Id, OutboxRow>, op: Id, id: Id)
    requires Receipts(inv.receipts, decidedOn, outbox) && Movements(inv.movements, inv.receipts, decidedOn, outbox)
    requires op in outbox
    ensures op in inv.receipts ==> ReceiptIsExact(inv, decidedOn, op, outbox[op].payload.lines, id)
    ensures op !in inv.receipts ==> MovedBy(inv, op, id) == 0
  {
    assert MovedOnce(inv.movements, inv.receipts, decidedOn, outbox, op);
    if op in inv.receipts {
      assert ReceiptAt(inv.receipts, decidedOn, outbox, op);
      BackedReceiptIsExact(inv, decidedOn, outbox[op].payload, op, id);
    }
  }

  lemma BackedReceiptIsExact(inv: Inventory.Database, decidedOn: map<Id, Pos>, request: CommitCommand, op: Id, id: Id)
    requires op in inv.receipts && op in decidedOn && ReceiptBacked(inv.receipts[op], op, request, decidedOn[op])
    requires MovementsOf(inv.movements, op) == SalesFor(decidedOn[op], request, inv.receipts[op].result)
    ensures ReceiptIsExact(inv, decidedOn, op, request.lines, id)
  {
    SalesMoveDemand(decidedOn[op], request, inv.receipts[op].result.occurredAt, id);
  }

  lemma RequestCarriesOrderLines(callers: map<Id, Caller>, t: Tables, op: Id)
    requires Backed(callers, t) && op in t.operations
    ensures op in t.outbox && t.operations[op].orderId in t.orders
    ensures t.outbox[op].payload.lines == Items(t.orders[t.operations[op].orderId].lines)
  {
  }

  lemma StatusFollowsReceipt(t: Tables, receipts: map<Id, Inventory.Receipt>, op: Id)
    requires Lifecycle(t) && Results(t.operations, receipts) && op in t.operations
    ensures t.operations[op].orderId in t.orders
    ensures var status := t.orders[t.operations[op].orderId].status;
      && (status.Confirmed? ==> op in receipts && receipts[op].result.status.Committed?)
      && (status.Rejected? ==> op in receipts && receipts[op].result.status.ItemsUnavailable?)
  {
  }

  /** The `k`th step is the call that answered the operation. */
  ghost predicate AnsweredBy(states: seq<System>, actions: seq<Action>, k: nat, op: Id) {
    && k < |actions| && k + 1 < |states|
    && actions[k].CallAdapter? && actions[k].claim.commit.operationId == op
    && op !in states[k].inv.receipts && op in states[k + 1].inv.receipts
  }

  /** The tables on record for the operation are those the adapter's database held when the call that answered it
      ran. */
  ghost predicate DecidedInTheRun(states: seq<System>, actions: seq<Action>, i: nat, op: Id) {
    && i < |states| && op in states[i].decidedOn
    && exists k: nat :: k < i && AnsweredBy(states, actions, k, op) && states[i].decidedOn[op] == states[k].inv.pos
  }

  ghost predicate RecordsDecision(s: System, a: Action, t: System, op: Id) {
    && op in t.decidedOn
    && (op in s.inv.receipts ==> op in s.decidedOn && t.decidedOn[op] == s.decidedOn[op])
    && (op !in s.inv.receipts ==>
          a.CallAdapter? && a.claim.commit.operationId == op && t.decidedOn[op] == s.inv.pos)
  }

  lemma CallRecordsDecision(s: System, a: Action, op: Id)
    requires Inv(s) && a.CallAdapter? && Enabled(s, a) && op in Next(s, a).inv.receipts
    ensures RecordsDecision(s, a, Next(s, a), op)
  {
    var claim := a.claim;
    ReceiptsAreDecided(s);
    match KindOf(s, claim) {
      case Repeated => RepeatedCall(s, claim, a.eventId, a.now);
      case Refused =>
        RefusedCall(s, claim, a.eventId, a.now);
        SilentCall(s, claim, a.eventId, a.now);
      case First => FirstCallRecordsDecision(s, a, op);
    }
  }

  lemma FirstCallRecordsDecision(s: System, a: Action, op: Id)
    requires Inv(s) && a.CallAdapter? && Enabled(s, a) && KindOf(s, a.claim).First? && op in Next(s, a).inv.receipts
    requires s.decidedOn.Keys == s.inv.receipts.Keys
    ensures RecordsDecision(s, a, Next(s, a), op)
  {
    var command := a.claim.commit;
    FirstCallIs(s, a.claim, a.eventId, a.now);
    NewDecisionIsRecorded(
      s, a, Next(s, a), op,
      ReceiptFor(command, CanonicalText(command), Inventory.Decide(s.inv.pos, command, a.eventId, a.now)));
  }

  lemma NewDecisionIsRecorded(s: System, a: Action, t: System, op: Id, receipt: Inventory.Receipt)
    requires a.CallAdapter? && s.decidedOn.Keys == s.inv.receipts.Keys && op in t.inv.receipts
    requires t.inv.receipts == s.inv.receipts[a.claim.commit.operationId := receipt]
    requires t.decidedOn == s.decidedOn[a.claim.commit.operationId := s.inv.pos]
    requires a.claim.commit.operationId !in s.inv.receipts
    ensures RecordsDecision(s, a, t, op)
  {
  }

  lemma ReceiptsAreDecided(s: System)
    requires Inv(s)
    ensures s.decidedOn.Keys == s.inv.receipts.Keys
  {
    assert LayerHolds(InventoryLayer, s);
  }

  lemma StepRecordsDecision(s: System, a: Action, op: Id)
    requires Inv(s) && Enabled(s, a) && op in Next(s, a).inv.receipts
    ensures RecordsDecision(s, a, Next(s, a), op)
  {
    if a.CallAdapter? {
      CallRecordsDecision(s, a, op);
    } else {
      ReceiptsAreDecided(s);
    }
  }

  lemma RunRecordsDecision(states: seq<System>, actions: seq<Action>, i: nat, op: Id)
    requires IsRun(states, actions) && i < |actions| && op in states[i + 1].inv.receipts
    ensures RecordsDecision(states[i], actions[i], states[i + 1], op)
  {
    RunKeepsInv(states, actions, i);
    assert StepAt(states, actions, i);
    StepRecordsDecision(states[i], actions[i], op);
  }

  /** Every receipt was decided by a call of this run, on the tables of that moment. */
  lemma {:induction false} ReceiptsAreDecidedInTheRun(states: seq<System>, actions: seq<Action>, i: nat, op: Id)
    requires IsRun(states, actions) && i < |states| && op in states[i].inv.receipts
    ensures DecidedInTheRun(states, actions, i, op)
  {
    if i > 0 {
      RunRecordsDecision(states, actions, i - 1, op);
      if op in states[i - 1].inv.receipts {
        ReceiptsAreDecidedInTheRun(states, actions, i - 1, op);
      } else {
        assert AnsweredBy(states, actions, i - 1, op);
      }
    }
  }

  /** In every state of every run, and whatever crashed, was lost, was repeated or was taken over: a confirmed
      order has a COMMITTED receipt and its lines' demand has left the stock exactly once; a rejected order has
      an ITEMS_UNAVAILABLE receipt and nothing has left; a submitted order is in one of the two situations or
      has no receipt and nothing has left. The receipt's verdict is the exact one on the tables the adapter held
      when the call that answered it ran. */
  lemma ExactlyOnce(states: seq<System>, actions: seq<Action>, i: nat, op: Id, id: Id)
    requires IsRun(states, actions) && i < |states| && op in states[i].ord.operations
    ensures var s := states[i]; var o := s.ord.operations[op].orderId;
      && o in s.ord.orders
      && var order := s.ord.orders[o];
         && (order.status.Confirmed? ==> op in s.inv.receipts && s.inv.receipts[op].result.status.Committed?)
         && (order.status.Rejected? ==> op in s.inv.receipts && s.inv.receipts[op].result.status.ItemsUnavailable?)
         && (op !in s.inv.receipts ==> MovedBy(s.inv, op, id) == 0)
         && (op in s.inv.receipts ==> ReceiptIsExact(s.inv, s.decidedOn, op, Items(order.lines), id))
         && (op in s.inv.receipts ==> DecidedInTheRun(states, actions, i, op))
  {
    RunKeepsInv(states, actions, i);
    var s := states[i];
    assert LayerHolds(OrderingLayer, s) && LayerHolds(InventoryLayer, s) && LayerHolds(ExchangeLayer, s);
    RequestCarriesOrderLines(s.callers, s.ord, op);
    StatusFollowsReceipt(s.ord, s.inv.receipts, op);
    ReceiptsAreExact(s.inv, s.decidedOn, s.ord.outbox, op, id);
    if op in s.inv.receipts {
      ReceiptsAreDecidedInTheRun(states, actions, i, op);
    }
  }

  /** Stock, movements and the changes made by others balance in every state. */
  lemma StockBalances(states: seq<System>, actions: seq<Action>, i: nat, id: Id)
    requires IsRun(states, actions) && i < |states|
    ensures var s := states[i];
      Stock(s.inv.pos, id) == Stock(s.start, id) + Get(s.outside, id) + Moved(s.inv.movements, id)
  {
    RunKeepsInv(states, actions, i);
    assert LayerHolds(InventoryLayer, states[i]);
    assert Accounted(states[i].inv, states[i].start, states[i].outside, id);
  }

  /** No call of the adapter takes a stock item below zero. */
  lemma DeductionsStayAboveZero(s: System, claim: ClaimedWork, eventId: Id, now: Instant, id: Id)
    requires Inv(s) && Enabled(s, CallAdapter(claim, eventId, now))
    ensures var after := Next(s, CallAdapter(claim, eventId, now));
      Stock(after.inv.pos, id) == Stock(s.inv.pos, id) || 0 <= Stock(after.inv.pos, id) < Stock(s.inv.pos, id)
  {
    match KindOf(s, claim) {
      case Repeated => RepeatedCall(s, claim, eventId, now);
      case Refused => RefusedCall(s, claim, eventId, now);
      case First =>
        FirstCall(s, claim, eventId, now);
        FirstCommitStaysAboveZero(s.inv, claim.commit, CanonicalText(claim.commit), eventId, now, id);
    }
  }

  lemma FirstCommitStaysAboveZero(
    db: Inventory.Database, command: CommitCommand, fingerprint: string, eventId: Id, now: Instant, id: Id)
    requires ValidCommand(command) && command.operationId !in db.receipts
    ensures var after := Inventory.Commit(db, command, fingerprint, eventId, now).0;
      Stock(after.pos, id) == Stock(db.pos, id) || 0 <= Stock(after.pos, id) < Stock(db.pos, id)
  {
  }

  // ----- Agreement -----

  /** Any two answers the adapter gave for one operation are the same, whoever received them, and the ordering
      service accepts them. */
  lemma RepliesAgree(states: seq<System>, actions: seq<Action>, i: nat, a: Reply, b: Reply)
    requires IsRun(states, actions) && i < |states| && a in states[i].replies && b in states[i].replies
    requires a.claim.commit.operationId == b.claim.commit.operationId
    ensures a.result == b.result && a.claim.commit == b.claim.commit
    ensures ValidResult(a.result) && AcceptableReply(a.result, a.claim.commit)
  {
    RunKeepsInv(states, actions, i);
    var s, op := states[i], a.claim.commit.operationId;
    assert LayerHolds(InventoryLayer, s) && LayerHolds(ExchangeLayer, s);
    assert ReplyBacked(a, s.claims, s.inv.receipts) && ReplyBacked(b, s.claims, s.inv.receipts);
    ClaimIsRequest(s, a.claim);
    ClaimIsRequest(s, b.claim);
    assert ReceiptAt(s.inv.receipts, s.decidedOn, s.ord.outbox, op);
  }

  /** In no run does the adapter report a conflict, or the ordering store a conflict, a missing row or a
      constraint violation, for a claimed order. */
  lemma NeverConflicts(states: seq<System>, actions: seq<Action>, i: nat)
    requires IsRun(states, actions) && i < |actions|
    ensures var s := states[i];
      match actions[i]
      case CallAdapter(claim, eventId, now) =>
        && ValidCommand(claim.commit)
        && !Inventory.Commit(s.inv, claim.commit, CanonicalText(claim.commit), eventId, now).1.OperationConflict?
      case ApplyReply(reply, now) =>
        var outcome := Apply(s.ord, reply.claim, reply.result, now).1;
        outcome.Applied? || outcome.Replayed? || outcome.ClaimLost?
      case InsertDraft(caller) => caller in s.callers && !Insert(s.ord, s.callers[caller].draft).1.InsertFailed?
      case _ => true
  {
    RunKeepsInv(states, actions, i);
    assert StepAt(states, actions, i);
    var s := states[i];
    assert LayerHolds(OrderingLayer, s);
    match actions[i]
    case CallAdapter(claim, eventId, now) => CallNeverConflicts(s, claim, eventId, now);
    case ApplyReply(reply, now) => ApplyOutcomeIs(s, reply, now);
    case InsertDraft(caller) =>
      UnansweredHasNoOrder(s.callers, s.ord, caller);
      FreshDraftDoesNotClash(s.callers, s.ord, caller);
    case _ =>
  }

  lemma CallNeverConflicts(s: System, claim: ClaimedWork, eventId: Id, now: Instant)
    requires Inv(s) && Enabled(s, CallAdapter(claim, eventId, now))
    ensures ValidCommand(claim.commit)
    ensures !Inventory.Commit(s.inv, claim.commit, CanonicalText(claim.commit), eventId, now).1.OperationConflict?
  {
    assert LayerHolds(OrderingLayer, s) && LayerHolds(InventoryLayer, s);
    var op := claim.commit.operationId;
    ClaimIsRequest(s, claim);
    if op in s.inv.receipts {
      ReceiptsAnswer(s.inv.receipts, s.decidedOn, s.ord.outbox, op);
      SameFingerprintIsNoConflict(s.inv, claim.commit, eventId, now);
    } else {
      EventsAreUnique(s.callers, s.ord);
      InvMatchesEvents(s);
      RequestEventIsNotTaken(s.ord, s.inv.receipts, op, eventId);
      FreeEventIsNoConflict(s.inv, claim.commit, eventId, now);
    }
  }

  lemma SameFingerprintIsNoConflict(db: Inventory.Database, command: CommitCommand, eventId: Id, now: Instant)
    requires ValidCommand(command) && command.operationId in db.receipts
    requires db.receipts[command.operationId].fingerprint == CanonicalText(command)
    ensures !Inventory.Commit(db, command, CanonicalText(command), eventId, now).1.OperationConflict?
  {
  }

  lemma FreeEventIsNoConflict(db: Inventory.Database, command: CommitCommand, eventId: Id, now: Instant)
    requires ValidCommand(command) && command.operationId !in db.receipts
    requires !Inventory.EventTaken(db.receipts, command.eventId, eventId)
    ensures !Inventory.Commit(db, command, CanonicalText(command), eventId, now).1.OperationConflict?
  {
  }

  // ----- Lifecycle -----

  function FulfillmentAt(t: Tables, o: Id): Option<Fulfillment> {
    if o in t.fulfillments then Some(t.fulfillments[o]) else None
  }

  function CustomerStateAt(t: Tables, o: Id): Option<CustomerState>
    requires o in t.orders
  {
    CustomerStateOf(t.orders[o].status, FulfillmentAt(t, o))
  }

  /** The four tables move in step, the customer's state is always defined, an order is decided at most once,
      and the version counts the advances. */
  lemma TablesStayInStep(states: seq<System>, actions: seq<Action>, i: nat, op: Id)
    requires IsRun(states, actions) && i < |states| && op in states[i].ord.operations
    ensures var t := states[i].ord; var o, operation := t.operations[op].orderId, t.operations[op];
      && o in t.orders && op in t.outbox
      && var order, published := t.orders[o], t.outbox[op].publishedAt.Some?;
         && (order.status.Submitted? <==> operation.status.Pending?)
         && (operation.status.Pending? <==> !published)
         && (order.status.Confirmed? <==> operation.status == Resolved(Committed))
         && (order.status.Confirmed? <==> o in t.fulfillments)
         && (order.status.Rejected? <==> operation.status == Resolved(ItemsUnavailable))
         && CustomerStateAt(t, o).Some?
         && CountAudits(t.audits, InventoryCommitted, o) + CountAudits(t.audits, OrderRejected, o)
              == (if order.status.Submitted? then 0 else 1)
         && (o in t.fulfillments ==> t.fulfillments[o].version == 1 + CountAudits(t.audits, FulfillmentAdvanced, o) <= 3)
  {
    RunKeepsInv(states, actions, i);
    assert LayerHolds(OrderingLayer, states[i]);
    assert InStep(states[i].ord, op);
    assert OrderInStep(states[i].ord, states[i].ord.operations[op].orderId);
  }

  /** The next action a cashier is offered is always a legal target, and the only one that is not a repetition. */
  lemma NextActionIsTheLegalTarget(current: FulfillmentStatus, target: FulfillmentStatus)
    ensures ValidTarget(current, target) && target != current <==> NextAction(current) == Some(target)
  {
  }

  // ----- Checkouts -----

  /** However the lookups and inserts of any number of callers interleave, one checkout has at most one order,
      every successful caller is given that order, and at most one caller is told that it was new. */
  lemma CheckoutIsIdempotent(states: seq<System>, actions: seq<Action>, i: nat, a: Id, b: Id)
    requires IsRun(states, actions) && i < |states|
    requires a in states[i].callers && b in states[i].callers
    requires states[i].callers[a].draft.checkoutId == states[i].callers[b].draft.checkoutId
    requires states[i].callers[a].stage.Answered? && states[i].callers[a].stage.answer.Placed?
    requires states[i].callers[b].stage.Answered? && states[i].callers[b].stage.answer.Placed?
    ensures var first, second := states[i].callers[a].stage.answer, states[i].callers[b].stage.answer;
      && first.orderId == second.orderId && first.orderId in states[i].ord.orders
      && (!first.replayed && !second.replayed ==> a == b)
      && states[i].callers[a].draft.fingerprint == states[i].callers[b].draft.fingerprint
  {
    RunKeepsInv(states, actions, i);
    var s := states[i];
    assert LayerHolds(OrderingLayer, s);
    assert AnswerBacked(a, s.callers, s.ord.orders) && AnswerBacked(b, s.callers, s.ord.orders);
  }

  ghost function OperationsOf(t: Tables, o: Id): set<Id> {
    set op | op in t.operations && t.operations[op].orderId == o
  }

  ghost function OutboxOf(t: Tables, o: Id): set<Id> {
    set op | op in t.outbox && t.outbox[op].orderId == o
  }

  /** Every order has exactly one operation and one outbox row, and its caller was told that it is new. */
  lemma OrderHasOneOperation(states: seq<System>, actions: seq<Action>, i: nat, o: Id)
    requires IsRun(states, actions) && i < |states| && o in states[i].ord.orders
    ensures |OperationsOf(states[i].ord, o)| == 1 && OutboxOf(states[i].ord, o) == OperationsOf(states[i].ord, o)
    ensures o in states[i].callers && states[i].callers[o].stage == Answered(Placed(o, false))
  {
    RunKeepsInv(states, actions, i);
    assert LayerHolds(OrderingLayer, states[i]);
    BackedOrderHasOneOperation(states[i].callers, states[i].ord, o);
  }

  lemma BackedOrderHasOneOperation(callers: map<Id, Caller>, t: Tables, o: Id)
    requires Backed(callers, t) && o in t.orders
    ensures |OperationsOf(t, o)| == 1 && OutboxOf(t, o) == OperationsOf(t, o)
    ensures o in callers && callers[o].stage == Answered(Placed(o, false))
  {
    assert OrderBacked(callers, t, o);
    var op := callers[o].draft.operationId;
    forall other | other in t.operations
      ensures t.operations[other].orderId == o <==> other == op
      ensures t.outbox[other].orderId == t.operations[other].orderId
    {
      assert OperationBacked(callers, t, other);
    }
    assert OperationsOf(t, o) == {op};
  }

  // ----- Claim fencing -----

  ghost predicate Current(s: System, claim: ClaimedWork) {
    && claim.commit.operationId in s.ord.outbox
    && s.ord.outbox[claim.commit.operationId].claimToken == Some(claim.claimToken)
  }

  /** Every row was claimed as often as it says, a current claim is the latest one, there is at most one, and a
      published row has none and can never be claimed again. */
  lemma ClaimsAreFenced(states: seq<System>, actions: seq<Action>, i: nat, op: Id)
    requires IsRun(states, actions) && i < |states| && op in states[i].ord.outbox
    ensures var s := states[i]; var row, claims := s.ord.outbox[op], ClaimsOn(s.claims, op);
      && |claims| == row.attemptCount
      && (forall c :: c in claims && Current(s, c) ==> c.attemptCount == row.attemptCount)
      && (forall a, b :: a in claims && b in claims && Current(s, a) && Current(s, b) ==> a == b)
      && (row.publishedAt.Some? ==> forall c :: c in claims ==> !Current(s, c))
      && (row.publishedAt.Some? ==> forall now, lease :: !Claimable(row, now, lease))
  {
    RunKeepsInv(states, actions, i);
    var s := states[i];
    assert LayerHolds(OrderingLayer, s) && LayerHolds(ExchangeLayer, s);
    assert RowCounted(s.claims, op, s.ord.outbox[op]);
    assert OperationBacked(s.callers, s.ord, op);
    assert InStep(s.ord, op);
  }

  /** Whatever a worker does with a claim that is no longer current changes no table. */
  lemma SupersededClaimsDoNothing(states: seq<System>, actions: seq<Action>, i: nat)
    requires IsRun(states, actions) && i < |actions|
    ensures match actions[i]
      case ApplyReply(reply, now) => !Current(states[i], reply.claim) ==> states[i + 1].ord == states[i].ord
      case RetryClaim(claim, next, errorCode) =>
        !Current(states[i], claim) ==>
          states[i + 1].ord == states[i].ord && !Retry(states[i].ord, claim, next, errorCode).1
      case _ => true
  {
    RunKeepsInv(states, actions, i);
    assert StepAt(states, actions, i);
    var s := states[i];
    assert LayerHolds(OrderingLayer, s) && LayerHolds(InventoryLayer, s);
    match actions[i]
    case ApplyReply(reply, now) => ApplyOutcomeIs(s, reply, now);
    case RetryClaim(claim, next, errorCode) =>
      if !Current(s, claim) {
        ClaimIsRequest(s, claim);
        EventsAreUnique(s.callers, s.ord);
        InvMatchesEvents(s);
        NothingHeld(s.ord, claim);
      }
    case _ =>
  }

  lemma NothingHeld(t: Tables, claim: ClaimedWork)
    requires EventsUnique(t) && claim.commit.operationId in t.outbox
    requires t.outbox[claim.commit.operationId].eventId == claim.commit.eventId
    requires t.outbox[claim.commit.operationId].claimToken != Some(claim.claimToken)
    ensures !HoldsSome(t, claim)
    ensures forall next, errorCode :: Retry(t, claim, next, errorCode).0 == t
  {
  }

  // ----- What never goes back -----

  /** `b` is `a` or a customer-visible state after it. */
  predicate Forward(a: Option<CustomerState>, b: Option<CustomerState>) {
    || a == b
    || (a == Some(CustomerPreparing) && b.Some?)
    || (a == Some(OnTheWay) && b == Some(CustomerDelivered))
  }

  ghost predicate OrderLater(t: Tables, u: Tables, o: Id)
    requires o in t.orders
  {
    && o in u.orders
    && u.orders[o] == t.orders[o].(status := u.orders[o].status)
    && (!t.orders[o].status.Submitted? ==> u.orders[o].status == t.orders[o].status)
    && (o in t.fulfillments ==> o in u.fulfillments)
    && Forward(CustomerStateAt(t, o), CustomerStateAt(u, o))
  }

  ghost predicate OperationLater(t: Tables, u: Tables, op: Id)
    requires op in t.operations
  {
    && op in u.operations
    && u.operations[op].orderId == t.operations[op].orderId
    && (!t.operations[op].status.Pending? ==> u.operations[op] == t.operations[op])
  }

  ghost predicate RowLater(t: Tables, u: Tables, op: Id)
    requires op in t.outbox
  {
    && op in u.outbox
    && SameRow(t.outbox[op], u.outbox[op])
    && t.outbox[op].attemptCount <= u.outbox[op].attemptCount
    && (t.outbox[op].publishedAt.Some? ==> u.outbox[op] == t.outbox[op])
  }

  ghost predicate TablesLater(t: Tables, u: Tables) {
    && (forall o :: o in t.orders ==> OrderLater(t, u, o))
    && (forall op :: op in t.operations ==> OperationLater(t, u, op))
    && (forall op :: op in t.outbox ==> RowLater(t, u, op))
  }

  ghost predicate ReceiptLater(a: Inventory.Database, b: Inventory.Database, op: Id)
    requires op in a.receipts
  {
    && op in b.receipts && b.receipts[op] == a.receipts[op]
    && MovementsOf(b.movements, op) == MovementsOf(a.movements, op)
  }

  ghost predicate DatabaseLater(a: Inventory.Database, b: Inventory.Database) {
    forall op :: op in a.receipts ==> ReceiptLater(a, b, op)
  }

  ghost predicate Later(s: System, t: System) {
    && TablesLater(s.ord, t.ord)
    && DatabaseLater(s.inv, t.inv)
    && s.claims <= t.claims && s.replies <= t.replies
  }

  lemma LaterIsTransitive(s: System, t: System, u: System)
    requires Later(s, t) && Later(t, u)
    ensures Later(s, u)
  {
  }

  lemma LaterIsReflexive(s: System)
    ensures Later(s, s)
  {
  }

  lemma InsertGoesForward(t: Tables, draft: Draft)
    ensures TablesLater(t, Insert(t, draft).0)
  {
  }

  lemma ClaimGoesForward(t: Tables, op: Id, token: Id, now: Instant)
    requires op in t.outbox && t.outbox[op].publishedAt.None?
    ensures TablesLater(t, Claim(t, op, token, now))
  {
  }

  lemma RetryGoesForward(t: Tables, claim: ClaimedWork, next: Instant, errorCode: string)
    ensures TablesLater(t, Retry(t, claim, next, errorCode).0)
  {
  }

  lemma ApplyGoesForward(t: Tables, claim: ClaimedWork, result: CommitResult, now: Instant)
    ensures TablesLater(t, Apply(t, claim, result, now).0)
  {
    if Apply(t, claim, result, now).1.Applied? {
      ResolveGoesForward(t, result, now);
    }
  }

  lemma ResolveGoesForward(t: Tables, result: CommitResult, now: Instant)
    requires result.operationId in t.operations && result.operationId in t.outbox && result.orderId in t.orders
    requires t.operations[result.operationId].status.Pending? && t.outbox[result.operationId].publishedAt.None?
    requires t.orders[result.orderId].status.Submitted?
    requires result.status.Committed? ==> result.orderId !in t.fulfillments
    ensures TablesLater(t, Resolve(t, result, now))
  {
  }

  lemma AdvanceGoesForward(t: Tables, o: Id, target: FulfillmentStatus, now: Instant)
    ensures TablesLater(t, Advance(t, o, target, now).0)
  {
  }

  lemma CommitGoesForward(db: Inventory.Database, command: CommitCommand, fingerprint: string, eventId: Id, now: Instant)
    requires ValidCommand(command)
    ensures DatabaseLater(db, Inventory.Commit(db, command, fingerprint, eventId, now).0)
  {
    var after := Inventory.Commit(db, command, fingerprint, eventId, now).0;
    if command.operationId !in db.receipts && after != db {
      var result := Inventory.Decide(db.pos, command, eventId, now);
      assert db.movements + [] == db.movements;
      NewReceiptGoesForward(db, after, command.operationId, SalesFor(db.pos, command, result));
    }
  }

  lemma NewReceiptGoesForward(db: Inventory.Database, after: Inventory.Database, op: Id, sales: seq<Inventory.Movement>)
    requires op !in db.receipts && op in after.receipts && after.receipts == db.receipts[op := after.receipts[op]]
    requires after.movements == db.movements + sales && forall m :: m in sales ==> m.operationId == op
    ensures DatabaseLater(db, after)
  {
    forall other | other in db.receipts
      ensures ReceiptLater(db, after, other)
    {
      MovementsOfConcat(db.movements, sales, other);
      MovementsOfOne(sales, op, other);
    }
  }

  lemma CallGoesForward(s: System, claim: ClaimedWork, eventId: Id, now: Instant)
    ensures Later(s, Called(s, claim, eventId, now))
  {
    if ValidCommand(claim.commit) {
      CommitGoesForward(s.inv, claim.commit, CanonicalText(claim.commit), eventId, now);
    }
  }

  lemma StepGoesForward(s: System, a: Action)
    requires Enabled(s, a)
    ensures Later(s, Next(s, a))
  {
    if a.CallAdapter? {
      CallGoesForward(s, a.claim, a.eventId, a.now);
    } else {
      OrderingStepGoesForward(s, a);
    }
  }

  lemma OrderingStepGoesForward(s: System, a: Action)
    requires Enabled(s, a) && !a.CallAdapter?
    ensures TablesLater(s.ord, Next(s, a).ord)
  {
    match a
    case InsertDraft(caller) => InsertGoesForward(s.ord, s.callers[caller].draft);
    case ClaimWork(op, token, now, _) => ClaimGoesForward(s.ord, op, token, now);
    case ApplyReply(reply, now) => ApplyGoesForward(s.ord, reply.claim, reply.result, now);
    case RetryClaim(claim, next, errorCode) => RetryGoesForward(s.ord, claim, next, errorCode);
    case AdvanceOrder(order, target, now) => AdvanceGoesForward(s.ord, order, target, now);
    case _ =>
  }

  lemma RunStepGoesForward(states: seq<System>, actions: seq<Action>, i: nat)
    requires IsRun(states, actions) && i < |actions|
    ensures Later(states[i], states[i + 1])
  {
    assert StepAt(states, actions, i);
    StepGoesForward(states[i], actions[i]);
  }

  /** Between any two moments of a run: orders, receipts, movements of an answered operation, resolutions and
      published rows are never undone, and what a customer sees only moves forward. */
  lemma {:induction false} RunGoesForward(states: seq<System>, actions: seq<Action>, i: nat, j: nat)
    requires IsRun(states, actions) && i <= j < |states|
    ensures Later(states[i], states[j])
    decreases j
  {
    if i < j {
      RunGoesForward(states, actions, i, j - 1);
      RunStepGoesForward(states, actions, j - 1);
      LaterIsTransitive(states[i], states[j - 1], states[j]);
    } else {
      LaterIsReflexive(states[i]);
    }
  }

  /** A rejected order stays rejected and never moves stock; a confirmed one stays confirmed and moves no more. */
  lemma DecisionsAreFinal(states: seq<System>, actions: seq<Action>, i: nat, j: nat, op: Id, id: Id)
    requires IsRun(states, actions) && i <= j < |states| && op in states[i].ord.operations
    requires !states[i].ord.operations[op].status.Pending?
    ensures var s, t := states[i], states[j]; var o := s.ord.operations[op].orderId;
      && op in t.ord.operations && t.ord.operations[op] == s.ord.operations[op]
      && o in s.ord.orders && o in t.ord.orders && t.ord.orders[o] == s.ord.orders[o]
      && MovedBy(t.inv, op, id) == MovedBy(s.inv, op, id)
      && (s.ord.orders[o].status.Rejected? ==> MovedBy(t.inv, op, id) == 0)
  {
    RunGoesForward(states, actions, i, j);
    RunKeepsInv(states, actions, i);
    assert LayerHolds(OrderingLayer, states[i]) && LayerHolds(ExchangeLayer, states[i]);
    ExactlyOnce(states, actions, i, op, id);
    var s, t := states[i], states[j];
    assert InStep(s.ord, op) && OperationLater(s.ord, t.ord, op);
    assert OrderLater(s.ord, t.ord, s.ord.operations[op].orderId);
    assert op in s.inv.receipts && ReceiptLater(s.inv, t.inv, op);
  }

  /** A claim that was overtaken by a later one can never become current again. */
  lemma OvertakenForever(states: seq<System>, actions: seq<Action>, i: nat, j: nat, claim: ClaimedWork)
    requires IsRun(states, actions) && i <= j < |states| && claim in states[i].claims
    requires claim.commit.operationId in states[i].ord.outbox
    requires claim.attemptCount < states[i].ord.outbox[claim.commit.operationId].attemptCount
    ensures !Current(states[j], claim)
  {
    var op := claim.commit.operationId;
    RunGoesForward(states, actions, i, j);
    assert RowLater(states[i].ord, states[j].ord, op);
    assert claim in ClaimsOn(states[j].claims, op);
    ClaimsAreFenced(states, actions, j, op);
  }

  // ----- Every caller gets an answer -----

  /** A caller that lost the insert race finds the order on its second look. */
  ghost predicate WillFind(s: System, caller: Id)
    requires caller in s.callers
  {
    && (s.callers[caller].stage.Conflicted? ==> CheckoutUsed(s.ord, s.callers[caller].draft.checkoutId))
    && s.callers[caller].stage != Answered(Failed)
  }

  lemma StepKeepsFinding(s: System, a: Action, caller: Id)
    requires Inv(s) && Enabled(s, a) && caller in Next(s, a).callers
    requires caller in s.callers ==> WillFind(s, caller)
    ensures WillFind(Next(s, a), caller)
  {
    assert LayerHolds(OrderingLayer, s);
    if a == InsertDraft(caller) {
      InsertFinds(s, caller);
    } else {
      StepGoesForward(s, a);
      OthersKeepFinding(s, a, caller);
    }
  }

  lemma InsertFinds(s: System, caller: Id)
    requires Drafts(s.callers) && Backed(s.callers, s.ord) && Enabled(s, InsertDraft(caller))
    ensures WillFind(Next(s, InsertDraft(caller)), caller)
  {
    UnansweredHasNoOrder(s.callers, s.ord, caller);
    FreshDraftDoesNotClash(s.callers, s.ord, caller);
    assert s.callers[caller].draft.orderId == caller;
  }

  lemma OthersKeepFinding(s: System, a: Action, caller: Id)
    requires Enabled(s, a) && a != InsertDraft(caller) && caller in Next(s, a).callers
    requires caller in s.callers ==> WillFind(s, caller)
    requires TablesLater(s.ord, Next(s, a).ord)
    ensures WillFind(Next(s, a), caller)
  {
  }

  /** No caller of `PlaceOrder` is ever left with a database error: it is given an order or told of a conflict. */
  lemma {:induction false} NoCallerFails(states: seq<System>, actions: seq<Action>, i: nat, caller: Id)
    requires IsRun(states, actions) && i < |states| && caller in states[i].callers
    ensures WillFind(states[i], caller)
  {
    if i > 0 {
      var s, a := states[i - 1], actions[i - 1];
      if caller in s.callers {
        NoCallerFails(states, actions, i - 1, caller);
      }
      RunKeepsInv(states, actions, i - 1);
      assert StepAt(states, actions, i - 1);
      StepKeepsFinding(s, a, caller);
    }
  }

  /** From any reachable state a caller with fresh identifiers and an unused checkout is given a new order in three
      steps, and its row can be claimed from its occurrence time on. */
  lemma FreshCheckoutIsPlaced(s: System, draft: Draft, now: Instant, lease: nat)
    requires Inv(s) && ValidDraft(draft) && FreshDraft(s, draft) && !CheckoutUsed(s.ord, draft.checkoutId)
    requires draft.occurredAt <= now
    ensures Enabled(s, Arrive(draft))
    ensures var arrived, o := Next(s, Arrive(draft)), draft.orderId;
      && Enabled(arrived, Lookup(o))
      && var looked := Next(arrived, Lookup(o));
         && Enabled(looked, InsertDraft(o))
         && var placed := Next(looked, InsertDraft(o));
            && AtStage(placed, o, Answered(Placed(o, false)))
            && o in placed.ord.orders && placed.ord.orders[o].status.Submitted?
            && draft.operationId in placed.ord.operations && placed.ord.operations[draft.operationId].status.Pending?
            && draft.operationId in placed.ord.outbox && Claimable(placed.ord.outbox[draft.operationId], now, lease)
  {
    var arrived := Next(s, Arrive(draft));
    StepKeepsInv(s, Arrive(draft));
    NewCallersOrderIsFree(arrived, draft.orderId);
  }

  lemma NewCallersOrderIsFree(s: System, caller: Id)
    requires Inv(s) && caller in s.callers && !s.callers[caller].stage.Answered?
    ensures caller !in s.ord.orders && !Clashes(s.ord, s.callers[caller].draft)
  {
    assert LayerHolds(OrderingLayer, s);
    UnansweredHasNoOrder(s.callers, s.ord, caller);
    FreshDraftDoesNotClash(s.callers, s.ord, caller);
  }

  // ----- Recovery -----

  /** The reply on the operation's receipt can be applied with the claim, and that resolves the operation. */
  ghost predicate Resolvable(s: System, claim: ClaimedWork, now: Instant)
    requires claim.commit.operationId in s.inv.receipts
  {
    var op := claim.commit.operationId;
    var reply := Reply(claim, s.inv.receipts[op].result);
    && Enabled(s, ApplyReply(reply, now))
    && var (applied, outcome) := Apply(s.ord, claim, reply.result, now);
       outcome.Applied? && op in applied.operations && applied.operations[op].status == Resolved(reply.result.status)
  }

  /** The claim's call leaves a receipt exactly if `answered`; then its reply resolves the operation, and otherwise
      nothing has changed at all. */
  ghost predicate CallEnds(s: System, claim: ClaimedWork, eventId: Id, now: Instant, answered: bool)
    requires Enabled(s, CallAdapter(claim, eventId, now))
  {
    var called := Next(s, CallAdapter(claim, eventId, now));
    && (claim.commit.operationId in called.inv.receipts <==> answered)
    && (answered ==> Resolvable(called, claim, now))
    && (!answered ==> called == s)
  }

  /** Whatever happened to a pending operation before, once its row is due and its lease is over, a worker can
      claim it; calling the adapter and applying the reply then resolves it exactly when it has a receipt already
      or no rounded component quantity overflows its column. Otherwise the call fails, nothing but the claim has
      changed, and the operation stays pending. */
  lemma PendingOperationsRecover(s: System, op: Id, token: Id, eventId: Id, now: Instant, lease: nat)
    requires Inv(s) && op in s.ord.operations && s.ord.operations[op].status.Pending?
    requires op in s.ord.outbox && s.ord.outbox[op].nextAttemptAt <= now
    requires s.ord.outbox[op].lockedAt.Some? ==> s.ord.outbox[op].lockedAt.value + lease <= now
    requires FreshToken(s, token) && FreshEvent(s, eventId) && eventId != NIL && now != 0
    ensures Enabled(s, ClaimWork(op, token, now, lease))
    ensures var claimed := Next(s, ClaimWork(op, token, now, lease)); var claim := WorkOf(s.ord.outbox[op], token);
      && claim.commit.operationId == op
      && op in claimed.ord.operations && claimed.ord.operations[op].status.Pending?
      && Enabled(claimed, CallAdapter(claim, eventId, now))
      && CallEnds(claimed, claim, eventId, now,
                  op in s.inv.receipts || !Overflows(s.inv.pos, s.ord.outbox[op].payload.lines))
  {
    assert LayerHolds(OrderingLayer, s) && LayerHolds(ExchangeLayer, s);
    PendingIsUnpublished(s, op);
    PayloadIsOperations(s, op);
    StepKeepsInv(s, ClaimWork(op, token, now, lease));
    CurrentClaimEnds(Next(s, ClaimWork(op, token, now, lease)), WorkOf(s.ord.outbox[op], token), eventId, now);
  }

  /** A current claim of a pending operation is two steps from its resolution unless the adapter must refuse it. */
  lemma CurrentClaimEnds(s: System, claim: ClaimedWork, eventId: Id, now: Instant)
    requires Inv(s) && Enabled(s, CallAdapter(claim, eventId, now))
    requires Current(s, claim) && claim.commit.operationId in s.ord.operations
    requires s.ord.operations[claim.commit.operationId].status.Pending?
    ensures CallEnds(s, claim, eventId, now, !KindOf(s, claim).Refused?)
  {
    if KindOf(s, claim).Refused? {
      RefusedCall(s, claim, eventId, now);
      SilentCall(s, claim, eventId, now);
    } else {
      CurrentClaimFinishes(s, claim, eventId, now);
    }
  }

  lemma PendingIsUnpublished(s: System, op: Id)
    requires Lifecycle(s.ord) && op in s.ord.operations && s.ord.operations[op].status.Pending? && op in s.ord.outbox
    ensures s.ord.outbox[op].publishedAt.None?
  {
  }

  /** A current claim of a pending operation that need not be refused is two steps from its resolution. */
  lemma CurrentClaimFinishes(s: System, claim: ClaimedWork, eventId: Id, now: Instant)
    requires Inv(s) && Enabled(s, CallAdapter(claim, eventId, now)) && !KindOf(s, claim).Refused?
    requires Current(s, claim) && claim.commit.operationId in s.ord.operations
    requires s.ord.operations[claim.commit.operationId].status.Pending?
    ensures var called := Next(s, CallAdapter(claim, eventId, now));
      claim.commit.operationId in called.inv.receipts && Resolvable(called, claim, now)
  {
    CallAnswers(s, claim, eventId, now);
    StepKeepsInv(s, CallAdapter(claim, eventId, now));
    var called := Next(s, CallAdapter(claim, eventId, now));
    PendingReplyIsApplied(called, Reply(claim, called.inv.receipts[claim.commit.operationId].result), now);
    AppliedIsResolved(called, claim, now);
  }

  lemma PendingReplyIsApplied(s: System, reply: Reply, now: Instant)
    requires Inv(s) && reply in s.replies && Current(s, reply.claim)
    requires reply.claim.commit.operationId in s.ord.operations
    requires s.ord.operations[reply.claim.commit.operationId].status.Pending?
    ensures reply.result.operationId == reply.claim.commit.operationId
    ensures Apply(s.ord, reply.claim, reply.result, now).1.Applied?
  {
    ApplyOutcomeIs(s, reply, now);
  }

  lemma AppliedIsResolved(s: System, claim: ClaimedWork, now: Instant)
    requires claim.commit.operationId in s.inv.receipts
    requires var reply := Reply(claim, s.inv.receipts[claim.commit.operationId].result);
      && reply in s.replies && reply.result.operationId == claim.commit.operationId
      && Apply(s.ord, claim, reply.result, now).1.Applied?
    ensures Resolvable(s, claim, now)
  {
  }

  lemma PayloadIsOperations(s: System, op: Id)
    requires Claiming(s.claims, s.ord.outbox) && op in s.ord.outbox
    ensures s.ord.outbox[op].payload.operationId == op
  {
  }

  /** A call that need not be refused leaves a receipt, and its reply reaches the caller. */
  lemma CallAnswers(s: System, claim: ClaimedWork, eventId: Id, now: Instant)
    requires Inv(s) && Enabled(s, CallAdapter(claim, eventId, now)) && !KindOf(s, claim).Refused?
    ensures var called := Next(s, CallAdapter(claim, eventId, now)); var op := claim.commit.operationId;
      && op in called.inv.receipts && Reply(claim, called.inv.receipts[op].result) in called.replies
      && called.ord == s.ord
  {
    if KindOf(s, claim).Repeated? {
      RepeatedCall(s, claim, eventId, now);
    } else {
      FirstCallAnswers(s, claim, eventId, now);
    }
  }

  lemma FirstCallAnswers(s: System, claim: ClaimedWork, eventId: Id, now: Instant)
    requires Inv(s) && Enabled(s, CallAdapter(claim, eventId, now)) && KindOf(s, claim).First?
    ensures var called := Called(s, claim, eventId, now); var op := claim.commit.operationId;
      && op in called.inv.receipts && Reply(claim, called.inv.receipts[op].result) in called.replies
      && called.ord == s.ord
  {
    FirstCall(s, claim, eventId, now);
    var inv := Serve(s.inv, claim.commit, eventId, now).0;
    AnsweredCall(s, claim, eventId, now, inv, Inventory.Decide(s.inv.pos, claim.commit, eventId, now));
  }
}
