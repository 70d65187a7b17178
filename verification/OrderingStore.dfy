/** The ordering tables and the transactions on them. The outbox is indexed by its unique operation_id. */
module OrderingStore {
  import opened Basics
  import opened CommitDomain
  import opened OrderingDomain

  datatype Order = Order(
    checkoutId: Id, fingerprint: CheckoutPayload, customerId: Id, status: OrderStatus, lines: seq<OrderLine>)

  datatype OperationStatus = Pending | Resolved(status: ResultStatus)

  datatype Operation = Operation(
    orderId: Id, status: OperationStatus, resultEventId: Option<Id>, unavailableItems: seq<UnavailableItem>)

  datatype OutboxRow = OutboxRow(
    eventId: Id, orderId: Id, payload: CommitCommand, occurredAt: Instant, publishedAt: Option<Instant>,
    attemptCount: nat, nextAttemptAt: Instant, lockedAt: Option<Instant>, claimToken: Option<Id>, errorCode: string)

  datatype AuditAction = OrderPlaced | InventoryCommitted | OrderRejected | FulfillmentAdvanced

  datatype Audit = Audit(action: AuditAction, orderId: Id)

  datatype Tables = Tables(
    orders: map<Id, Order>, operations: map<Id, Operation>, outbox: map<Id, OutboxRow>,
    fulfillments: map<Id, Fulfillment>, audits: seq<Audit>)

  datatype ClaimedWork = ClaimedWork(commit: CommitCommand, claimToken: Id, attemptCount: nat)

  // ----- Placing an order -----

  ghost predicate CheckoutUsed(t: Tables, checkoutId: Id) {
    exists o :: o in t.orders && t.orders[o].checkoutId == checkoutId
  }

  /** The unique constraint on orders.checkout_id. */
  ghost predicate CheckoutsUnique(t: Tables) {
    forall o, p :: o in t.orders && p in t.orders && t.orders[o].checkoutId == t.orders[p].checkoutId ==> o == p
  }

  /** The primary key of the outbox. */
  ghost predicate EventsUnique(t: Tables) {
    forall a, b :: a in t.outbox && b in t.outbox && t.outbox[a].eventId == t.outbox[b].eventId ==> a == b
  }

  ghost predicate Constrained(t: Tables) {
    CheckoutsUnique(t) && EventsUnique(t)
  }

  datatype Found = NoCheckout | Replay(orderId: Id) | CheckoutConflict

  ghost function OrderOfCheckout(t: Tables, checkoutId: Id): (o: Id)
    requires CheckoutUsed(t, checkoutId)
    ensures o in t.orders && t.orders[o].checkoutId == checkoutId
  {
    var o :| o in t.orders && t.orders[o].checkoutId == checkoutId;
    o
  }

  /** Looks a checkout up and compares fingerprint and owner. */
  ghost function Find(t: Tables, draft: Draft): Found {
    if !CheckoutUsed(t, draft.checkoutId) then NoCheckout
    else
      var o := OrderOfCheckout(t, draft.checkoutId);
      if t.orders[o].fingerprint != draft.fingerprint || t.orders[o].customerId != draft.customerId then CheckoutConflict
      else Replay(o)
  }

  datatype InsertOutcome = Inserted | CheckoutTaken | InsertFailed

  /** Some other row already carries one of the identifiers of the draft. */
  ghost predicate Clashes(t: Tables, draft: Draft) {
    || draft.operationId in t.operations || draft.operationId in t.outbox
    || (exists op :: op in t.outbox && t.outbox[op].eventId == draft.eventId)
    || LinesTaken(t, draft)
  }

  ghost predicate LineTaken(t: Tables, mine: OrderLine) {
    exists o, line :: o in t.orders && line in t.orders[o].lines && line.id == mine.id
  }

  ghost predicate LinesTaken(t: Tables, draft: Draft) {
    exists mine :: mine in draft.lines && LineTaken(t, mine)
  }

  function OrderRow(draft: Draft): Order {
    Order(draft.checkoutId, draft.fingerprint, draft.customerId, Submitted, draft.lines)
  }

  function OutboxRowOf(draft: Draft): OutboxRow {
    OutboxRow(draft.eventId, draft.orderId, RequestOf(draft), draft.occurredAt, None, 0, draft.occurredAt, None, None, "")
  }

  /** Order, operation, outbox row and audit record appear together or not at all. */
  ghost function Insert(t: Tables, draft: Draft): (Tables, InsertOutcome) {
    if draft.orderId in t.orders || CheckoutUsed(t, draft.checkoutId) then (t, CheckoutTaken)
    else if Clashes(t, draft) then (t, InsertFailed)
    else
      (t.(orders := t.orders[draft.orderId := OrderRow(draft)],
          operations := t.operations[draft.operationId := Operation(draft.orderId, Pending, None, [])],
          outbox := t.outbox[draft.operationId := OutboxRowOf(draft)],
          audits := t.audits + [Audit(OrderPlaced, draft.orderId)]),
       Inserted)
  }

  /** What a caller of `PlaceOrder` is told. */
  datatype PlaceAnswer = Placed(orderId: Id, replayed: bool) | Conflicting | Failed

  /** Lookup and insert with no other caller in between. */
  ghost function Place(t: Tables, draft: Draft): (Tables, PlaceAnswer) {
    match Find(t, draft)
    case Replay(o) => (t, Placed(o, true))
    case CheckoutConflict => (t, Conflicting)
    case NoCheckout =>
      var (after, outcome) := Insert(t, draft);
      (after, if outcome.Inserted? then Placed(draft.orderId, false) else Failed)
  }

  /** A caller without interference is given an order of its checkout, fingerprint and owner. The order is new exactly
      when the checkout was unused and the insert went through, and otherwise no table changes. */
  lemma PlaceIsExact(t: Tables, draft: Draft)
    ensures var (after, answer) := Place(t, draft);
      && (answer.Placed? ==>
            && answer.orderId in after.orders && after.orders[answer.orderId].checkoutId == draft.checkoutId
            && after.orders[answer.orderId].fingerprint == draft.fingerprint
            && after.orders[answer.orderId].customerId == draft.customerId)
      && (answer == Placed(draft.orderId, false) <==>
            !CheckoutUsed(t, draft.checkoutId) && draft.orderId !in t.orders && !Clashes(t, draft))
      && (answer.Failed? <==>
            !CheckoutUsed(t, draft.checkoutId) && (draft.orderId in t.orders || Clashes(t, draft)))
      && (answer.Placed? && !answer.replayed ==>
            && answer.orderId == draft.orderId && answer.orderId !in t.orders
            && after.orders == t.orders[draft.orderId := OrderRow(draft)]
            && draft.operationId !in t.operations && draft.operationId in after.operations)
      && (!answer.Placed? || answer.replayed ==> after == t)
  {
  }

  // ----- Claiming -----

  predicate Claimable(row: OutboxRow, now: Instant, lease: nat) {
    && row.publishedAt.None?
    && row.nextAttemptAt <= now
    && (row.lockedAt.None? || row.lockedAt.value + lease <= now)
  }

  function ClaimRow(row: OutboxRow, token: Id, now: Instant): OutboxRow {
    row.(lockedAt := Some(now), claimToken := Some(token), attemptCount := row.attemptCount + 1, errorCode := "")
  }

  function WorkOf(row: OutboxRow, token: Id): ClaimedWork {
    ClaimedWork(row.payload, token, row.attemptCount + 1)
  }

  function Claim(t: Tables, op: Id, token: Id, now: Instant): Tables
    requires op in t.outbox
  {
    t.(outbox := t.outbox[op := ClaimRow(t.outbox[op], token, now)])
  }

  // ----- Applying a result -----

  datatype ApplyOutcome = Applied | Replayed | OperationConflict | NotFound | ClaimLost | DatabaseError

  function ResolvedOperation(operation: Operation, result: CommitResult): Operation {
    Operation(operation.orderId, Resolved(result.status), Some(result.eventId),
              if result.status.Committed? then [] else result.unavailableItems)
  }

  function Published(row: OutboxRow, now: Instant): OutboxRow {
    row.(publishedAt := Some(now), lockedAt := None, claimToken := None, errorCode := "")
  }

  predicate SameResult(operation: Operation, result: CommitResult) {
    && operation.status == Resolved(result.status)
    && operation.resultEventId == Some(result.eventId)
    && operation.unavailableItems == result.unavailableItems
  }

  ghost predicate ResultEventUsed(t: Tables, eventId: Id) {
    exists op :: op in t.operations && t.operations[op].resultEventId == Some(eventId)
  }

  function Resolve(t: Tables, result: CommitResult, now: Instant): Tables
    requires result.operationId in t.operations && result.operationId in t.outbox && result.orderId in t.orders
  {
    var op, o := result.operationId, result.orderId;
    var committed := result.status.Committed?;
    Tables(
      t.orders[o := t.orders[o].(status := if committed then Confirmed else Rejected)],
      t.operations[op := ResolvedOperation(t.operations[op], result)],
      t.outbox[op := Published(t.outbox[op], now)],
      if committed then t.fulfillments[o := Fulfillment(Preparing, 1, None)] else t.fulfillments,
      t.audits + [Audit(if committed then InventoryCommitted else OrderRejected, o)])
  }

  ghost function Apply(t: Tables, claimed: ClaimedWork, result: CommitResult, now: Instant): (Tables, ApplyOutcome) {
    var op, o := result.operationId, result.orderId;
    if op != claimed.commit.operationId || o != claimed.commit.orderId then (t, OperationConflict)
    else if op !in t.operations || op !in t.outbox || t.operations[op].orderId != o then (t, NotFound)
    else if !t.operations[op].status.Pending? then
      (t, if SameResult(t.operations[op], result) then Replayed else OperationConflict)
    else if t.outbox[op].publishedAt.Some? || t.outbox[op].claimToken != Some(claimed.claimToken) then (t, ClaimLost)
    else if ResultEventUsed(t, result.eventId) then (t, DatabaseError)
    else if o !in t.orders || !t.orders[o].status.Submitted? then (t, OperationConflict)
    else if result.status.Committed? && o in t.fulfillments then (t, DatabaseError)
    else if t.outbox[op].eventId != claimed.commit.eventId then (t, ClaimLost)
    else (Resolve(t, result, now), Applied)
  }

  // ----- Retrying -----

  predicate HeldBy(row: OutboxRow, claimed: ClaimedWork) {
    row.eventId == claimed.commit.eventId && row.claimToken == Some(claimed.claimToken) && row.publishedAt.None?
  }

  function Released(row: OutboxRow, next: Instant, errorCode: string): OutboxRow {
    row.(lockedAt := None, claimToken := None, nextAttemptAt := next, errorCode := errorCode)
  }

  ghost predicate HoldsSome(t: Tables, claimed: ClaimedWork) {
    exists op :: op in t.outbox && HeldBy(t.outbox[op], claimed)
  }

  /** One update of every row the claim holds; the primary key makes that at most one. */
  ghost function Retry(t: Tables, claimed: ClaimedWork, next: Instant, errorCode: string): (Tables, bool) {
    (t.(outbox := map op | op in t.outbox ::
          if HeldBy(t.outbox[op], claimed) then Released(t.outbox[op], next, errorCode) else t.outbox[op]),
     HoldsSome(t, claimed))
  }

  // ----- Advancing a fulfillment -----

  datatype AdvanceOutcome = Advanced | NoOrder | InvalidTransition | AdvanceFailed

  function Advance(t: Tables, o: Id, target: FulfillmentStatus, now: Instant): (Tables, AdvanceOutcome) {
    if o !in t.orders || !t.orders[o].status.Confirmed? || o !in t.fulfillments then (t, NoOrder)
    else
      var f := t.fulfillments[o];
      if !ValidTarget(f.status, target) then (t, InvalidTransition)
      else if f.status == target then (t, Advanced)
      else if target.Delivered? && (f.deliveringAt.None? || now < f.deliveringAt.value) then (t, AdvanceFailed)
      else
        var moved := Fulfillment(target, f.version + 1, if target.Delivering? then Some(now) else f.deliveringAt);
        (t.(fulfillments := t.fulfillments[o := moved], audits := t.audits + [Audit(FulfillmentAdvanced, o)]), Advanced)
  }

  // ----- The store -----

  /** The tables after claiming the rows `ids` one after the other, with one token each. */
  function ClaimAll(t: Tables, ids: seq<Id>, tokens: seq<Id>, now: Instant): (r: Tables)
    requires |ids| <= |tokens| && forall op :: op in ids ==> op in t.outbox
    ensures r.outbox.Keys == t.outbox.Keys
  {
    if ids == [] then t
    else
      var n := |ids| - 1;
      Claim(ClaimAll(t, ids[..n], tokens, now), ids[n], tokens[n], now)
  }

  lemma {:induction false} ClaimAllTouches(t: Tables, ids: seq<Id>, tokens: seq<Id>, now: Instant)
    requires |ids| <= |tokens| && NoRepeats(ids) && forall op :: op in ids ==> op in t.outbox
    ensures var r := ClaimAll(t, ids, tokens, now);
      && r == t.(outbox := r.outbox)
      && (forall op :: op in t.outbox && op !in ids ==> r.outbox[op] == t.outbox[op])
      && (forall i :: 0 <= i < |ids| ==> r.outbox[ids[i]] == ClaimRow(t.outbox[ids[i]], tokens[i], now))
  {
    if ids != [] {
      var n := |ids| - 1;
      ClaimAllTouches(t, ids[..n], tokens, now);
      assert ids == ids[..n] + [ids[n]];
      assert ids[n] !in ids[..n];
    }
  }

  lemma ClaimAllStep(t: Tables, ids: seq<Id>, tokens: seq<Id>, now: Instant, i: nat)
    requires i < |ids| <= |tokens| && NoRepeats(ids) && forall op :: op in ids ==> op in t.outbox
    ensures ClaimAll(t, ids[..i], tokens, now).outbox[ids[i]] == t.outbox[ids[i]]
    ensures ClaimAll(t, ids[..i + 1], tokens, now) == Claim(ClaimAll(t, ids[..i], tokens, now), ids[i], tokens[i], now)
  {
    ClaimAllTouches(t, ids[..i], tokens, now);
    assert ids[..i + 1][..i] == ids[..i];
    assert ids[i] !in ids[..i];
  }

  predicate Earlier(a: OutboxRow, b: OutboxRow) {
    a.nextAttemptAt < b.nextAttemptAt || (a.nextAttemptAt == b.nextAttemptAt && a.occurredAt <= b.occurredAt)
  }

  ghost function Candidates(t: Tables, now: Instant, lease: nat): set<Id> {
    set op | op in t.outbox && Claimable(t.outbox[op], now, lease)
  }

  /** The batch a claim takes: due rows only, all of them if they fit, the oldest ones otherwise. */
  ghost predicate IsBatch(t: Tables, ids: seq<Id>, now: Instant, lease: nat, batch: nat) {
    var due := Candidates(t, now, lease);
    && NoRepeats(ids) && |ids| <= batch
    && (forall op :: op in ids ==> op in due)
    && (|ids| < batch ==> forall op :: op in due ==> op in ids)
    && (forall op, other :: op in ids && other in due && other !in ids ==> Earlier(t.outbox[op], t.outbox[other]))
  }

  /** One piece of work per claimed row, with its request and the row's new token. */
  ghost predicate WorkFor(t: Tables, ids: seq<Id>, tokens: seq<Id>, work: seq<ClaimedWork>) {
    && |ids| == |work| <= |tokens|
    && forall i :: 0 <= i < |ids| ==> ids[i] in t.outbox && work[i] == WorkOf(t.outbox[ids[i]], tokens[i])
  }

  class Store {
    var orders: map<Id, Order>
    var operations: map<Id, Operation>
    var outbox: map<Id, OutboxRow>
    var fulfillments: map<Id, Fulfillment>
    var audits: seq<Audit>

    ghost function View(): Tables
      reads this
    {
      Tables(orders, operations, outbox, fulfillments, audits)
    }

    method FindCheckout(draft: Draft) returns (found: Found)
      requires Constrained(View())
      ensures found == Find(View(), draft)
    {
      if o :| o in orders && orders[o].checkoutId == draft.checkoutId {
        assert CheckoutUsed(View(), draft.checkoutId);
        assert o == OrderOfCheckout(View(), draft.checkoutId);
        if orders[o].fingerprint != draft.fingerprint || orders[o].customerId != draft.customerId {
          return CheckoutConflict;
        }
        return Replay(o);
      }
      return NoCheckout;
    }

    method InsertOrder(draft: Draft) returns (outcome: InsertOutcome)
      modifies this
      ensures (View(), outcome) == old(Insert(View(), draft))
    {
      ghost var before := View();
      if draft.orderId in orders || exists o :: o in orders && orders[o].checkoutId == draft.checkoutId {
        assert draft.orderId in before.orders || CheckoutUsed(before, draft.checkoutId);
        return CheckoutTaken;
      }
      assert !CheckoutUsed(before, draft.checkoutId);
      var ok, items := InsertLines(draft);
      if !ok {
        return InsertFailed;
      }
      if draft.operationId in operations || draft.operationId in outbox
         || exists op :: op in outbox && outbox[op].eventId == draft.eventId {
        assert Clashes(before, draft);
        return InsertFailed;
      }
      assert !Clashes(before, draft);
      var payload := CommitCommand(
        SCHEMA_VERSION, draft.eventId, draft.operationId, draft.orderId, draft.occurredAt, items);
      orders := orders[draft.orderId := OrderRow(draft)];
      operations := operations[draft.operationId := Operation(draft.orderId, Pending, None, [])];
      outbox := outbox[draft.operationId :=
        OutboxRow(draft.eventId, draft.orderId, payload, draft.occurredAt, None, 0, draft.occurredAt, None, None, "")];
      audits := audits + [Audit(OrderPlaced, draft.orderId)];
      return Inserted;
    }

    /** The loop over the order lines: each line identifier must be new, and each line becomes an item of the request. */
    method InsertLines(draft: Draft) returns (ok: bool, items: seq<Line>)
      ensures ok <==> !LinesTaken(View(), draft)
      ensures ok ==> items == Items(draft.lines)
    {
      items := [];
      for i := 0 to |draft.lines|
        invariant items == Items(draft.lines[..i])
        invariant forall j :: 0 <= j < i ==> !LineTaken(View(), draft.lines[j])
      {
        var line := draft.lines[i];
        if exists o, other :: o in orders && other in orders[o].lines && other.id == line.id {
          assert line in draft.lines && LineTaken(View(), line);
          return false, items;
        }
        assert draft.lines[..i + 1][..i] == draft.lines[..i];
        items := items + [Line(line.id, line.productId, line.quantity)];
      }
      assert draft.lines[..|draft.lines|] == draft.lines;
      return true, items;
    }

    /** `ClaimInventoryWork` without concurrent claimants: the oldest due rows, up to a batch, one token each. */
    method ClaimInventoryWork(now: Instant, lease: nat, batch: nat, tokens: seq<Id>)
      returns (work: seq<ClaimedWork>, ids: seq<Id>)
      requires batch <= |tokens|
      modifies this`outbox
      ensures IsBatch(old(View()), ids, now, lease, batch)
      ensures WorkFor(old(View()), ids, tokens, work)
      ensures View() == ClaimAll(old(View()), ids, tokens, now)
    {
      ids := SelectOldest(outbox, (set op | op in outbox && Claimable(outbox[op], now, lease)), batch);
      work := UpdateClaimed(ids, tokens, now);
    }

    /** The update of the selected rows, returning one piece of work per row. */
    method UpdateClaimed(ids: seq<Id>, tokens: seq<Id>, now: Instant) returns (work: seq<ClaimedWork>)
      requires |ids| <= |tokens| && NoRepeats(ids) && forall op :: op in ids ==> op in outbox
      modifies this`outbox
      ensures View() == ClaimAll(old(View()), ids, tokens, now)
      ensures WorkFor(old(View()), ids, tokens, work)
    {
      ghost var tables := View();
      work := [];
      for i := 0 to |ids|
        invariant |work| == i
        invariant View() == ClaimAll(tables, ids[..i], tokens, now)
        invariant forall j :: 0 <= j < i ==> work[j] == WorkOf(tables.outbox[ids[j]], tokens[j])
      {
        ClaimAllStep(tables, ids, tokens, now, i);
        work := work + [WorkOf(outbox[ids[i]], tokens[i])];
        outbox := outbox[ids[i] := ClaimRow(outbox[ids[i]], tokens[i], now)];
      }
      assert ids[..|ids|] == ids;
    }

    /** `ApplyInventoryResult`. */
    method ApplyInventoryResult(claimed: ClaimedWork, result: CommitResult, now: Instant) returns (outcome: ApplyOutcome)
      requires Constrained(View())
      modifies this
      ensures (View(), outcome) == old(Apply(View(), claimed, result, now))
    {
      var op, o := result.operationId, result.orderId;
      ghost var before := View();
      if op != claimed.commit.operationId || o != claimed.commit.orderId {
        return OperationConflict;
      }
      if op !in operations || op !in outbox || operations[op].orderId != o {
        return NotFound;
      }
      var current, row := operations[op], outbox[op];
      if !current.status.Pending? {
        if current.status.status == result.status && current.resultEventId == Some(result.eventId)
           && current.unavailableItems == result.unavailableItems {
          return Replayed;
        }
        return OperationConflict;
      }
      if row.publishedAt.Some? || row.claimToken != Some(claimed.claimToken) {
        return ClaimLost;
      }
      if exists other :: other in operations && operations[other].resultEventId == Some(result.eventId) {
        assert ResultEventUsed(before, result.eventId);
        return DatabaseError;
      }
      assert !ResultEventUsed(before, result.eventId);
      var newOperations := operations[op := ResolvedOperation(current, result)];
      if o !in orders || !orders[o].status.Submitted? {
        return OperationConflict;
      }
      var newOrders, newFulfillments := orders, fulfillments;
      var action := OrderRejected;
      if result.status.Committed? {
        newOrders := orders[o := orders[o].(status := Confirmed)];
        if o in fulfillments {
          return DatabaseError;
        }
        newFulfillments := fulfillments[o := Fulfillment(Preparing, 1, None)];
        action := InventoryCommitted;
      } else {
        newOrders := orders[o := orders[o].(status := Rejected)];
      }
      if row.eventId != claimed.commit.eventId {
        return ClaimLost;
      }
      orders, operations, fulfillments := newOrders, newOperations, newFulfillments;
      audits := audits + [Audit(action, o)];
      outbox := outbox[op := Published(row, now)];
      return Applied;
    }

    /** `RetryInventoryWork`. */
    method RetryInventoryWork(claimed: ClaimedWork, next: Instant, errorCode: string) returns (released: bool)
      modifies this`outbox
      ensures (View(), released) == old(Retry(View(), claimed, next, errorCode))
    {
      ghost var before := View();
      released := exists op :: op in outbox && HeldBy(outbox[op], claimed);
      assert released == HoldsSome(before, claimed);
      outbox := map op | op in outbox ::
        if HeldBy(outbox[op], claimed) then Released(outbox[op], next, errorCode) else outbox[op];
    }

    /** `AdvanceFulfillment`. */
    method AdvanceFulfillment(o: Id, target: FulfillmentStatus, now: Instant) returns (outcome: AdvanceOutcome)
      modifies this`fulfillments, this`audits
      ensures (View(), outcome) == old(Advance(View(), o, target, now))
    {
      if o !in orders || !orders[o].status.Confirmed? || o !in fulfillments {
        return NoOrder;
      }
      var f := fulfillments[o];
      if !ValidTarget(f.status, target) {
        return InvalidTransition;
      }
      if f.status != target {
        if target.Delivering? {
          fulfillments := fulfillments[o := Fulfillment(Delivering, f.version + 1, Some(now))];
        } else {
          if f.deliveringAt.None? || now < f.deliveringAt.value {
            return AdvanceFailed;
          }
          fulfillments := fulfillments[o := Fulfillment(Delivered, f.version + 1, f.deliveringAt)];
        }
        audits := audits + [Audit(FulfillmentAdvanced, o)];
      }
      return Advanced;
    }

    /** `PlaceOrder` when no other caller runs in between. */
    method PlaceOrder(draft: Draft) returns (answer: PlaceAnswer)
      requires Constrained(View())
      modifies this
      ensures (View(), answer) == old(Place(View(), draft))
    {
      var found := FindCheckout(draft);
      match found
      case Replay(o) => return Placed(o, true);
      case CheckoutConflict => return Conflicting;
      case NoCheckout =>
        var inserted := InsertOrder(draft);
        return if inserted.Inserted? then Placed(draft.orderId, false) else Failed;
    }
  }

  /** Up to `batch` candidates, oldest first. */
  method SelectOldest(outbox: map<Id, OutboxRow>, candidates: set<Id>, batch: nat) returns (ids: seq<Id>)
    requires candidates <= outbox.Keys
    ensures |ids| <= batch && NoRepeats(ids) && forall op :: op in ids ==> op in candidates
    ensures |ids| < batch ==> forall op :: op in candidates ==> op in ids
    ensures forall op, other :: op in ids && other in candidates && other !in ids ==> Earlier(outbox[op], outbox[other])
    ensures forall op, other :: op in ids && other in candidates && other !in ids ==>
      && outbox[op].nextAttemptAt <= outbox[other].nextAttemptAt
      && (outbox[op].nextAttemptAt == outbox[other].nextAttemptAt ==> outbox[op].occurredAt <= outbox[other].occurredAt)
  {
    var todo := candidates;
    ids := [];
    while |ids| < batch && todo != {}
      invariant |ids| <= batch && NoRepeats(ids)
      invariant forall op :: op in todo <==> op in candidates && op !in ids
      invariant forall op :: op in ids ==> op in candidates
      invariant forall op, other :: op in ids && other in todo ==> Earlier(outbox[op], outbox[other])
      decreases todo
    {
      var op := PickOldest(outbox, todo);
      ids := ids + [op];
      todo := todo - {op};
    }
  }

  method PickOldest(outbox: map<Id, OutboxRow>, todo: set<Id>) returns (op: Id)
    requires todo != {} && todo <= outbox.Keys
    ensures op in todo && forall other :: other in todo ==> Earlier(outbox[op], outbox[other])
    ensures forall other :: other in todo ==>
      && outbox[op].nextAttemptAt <= outbox[other].nextAttemptAt
      && (outbox[op].nextAttemptAt == outbox[other].nextAttemptAt ==> outbox[op].occurredAt <= outbox[other].occurredAt)
  {
    op :| op in todo;
    var rest := todo - {op};
    while rest != {}
      invariant op in todo && rest <= todo
      invariant forall other :: other in todo && other !in rest ==> Earlier(outbox[op], outbox[other])
      decreases rest
    {
      var other :| other in rest;
      if !Earlier(outbox[op], outbox[other]) {
        op := other;
      }
      rest := rest - {other};
    }
  }
}
