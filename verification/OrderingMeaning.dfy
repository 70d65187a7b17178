/** What the ordering transactions do, said in the columns of the tables and without the definitions the store shares:
    which rows a claim takes, what a new order leaves behind, what a second result meets, and how a fulfillment moves. */
module OrderingMeaning {
  import opened Basics
  import opened CommitDomain
  import opened OrderingDomain
  import opened OrderingStore

  // ----- Claiming -----

  /** Unpublished, due, and not under a running lease. */
  predicate Due(row: OutboxRow, now: Instant, lease: nat) {
    row.publishedAt == None && row.nextAttemptAt <= now && (row.lockedAt == None || row.lockedAt.value + lease <= now)
  }

  /** A claim takes due rows only, each once and no more than a batch. It leaves a due row out only if the batch is
      full, and then every row it takes was due no later than that one, and if at the same time, had occurred no
      later. */
  lemma OldestRowsFirst(t: Tables, ids: seq<Id>, now: Instant, lease: nat, batch: nat, op: Id, other: Id)
    requires IsBatch(t, ids, now, lease, batch) && op in ids
    ensures |ids| <= batch && forall i, j :: 0 <= i < j < |ids| ==> ids[i] != ids[j]
    ensures op in t.outbox && Due(t.outbox[op], now, lease)
    ensures other in t.outbox && Due(t.outbox[other], now, lease) && other !in ids ==>
      && |ids| == batch
      && t.outbox[op].nextAttemptAt <= t.outbox[other].nextAttemptAt
      && (t.outbox[op].nextAttemptAt == t.outbox[other].nextAttemptAt ==>
            t.outbox[op].occurredAt <= t.outbox[other].occurredAt)
  {
    assert op in Candidates(t, now, lease);
    assert other in t.outbox && Due(t.outbox[other], now, lease) ==> other in Candidates(t, now, lease);
  }

  /** A claim changes one row, which nobody can claim before its lease is over and everybody can from then on; the worker
      is handed the row's request under the new token, with the number of this attempt. */
  lemma LeaseIsExclusive(t: Tables, op: Id, token: Id, now: Instant, lease: nat, later: Instant)
    requires op in t.outbox && Due(t.outbox[op], now, lease)
    ensures var after, work := Claim(t, op, token, now), WorkOf(t.outbox[op], token);
      && op in after.outbox && after == t.(outbox := t.outbox[op := after.outbox[op]])
      && var row := after.outbox[op];
         && (Claimable(row, later, lease) <==> now + lease <= later)
         && row == t.outbox[op].(lockedAt := row.lockedAt, claimToken := Some(token),
                                 attemptCount := t.outbox[op].attemptCount + 1, errorCode := "")
         && work.commit == t.outbox[op].payload && work.claimToken == token && work.attemptCount == row.attemptCount
  {
  }

  /** The row is locked under the claim's token, for the claim's event, and is unpublished. */
  predicate LockedBy(row: OutboxRow, claim: ClaimedWork) {
    row.publishedAt == None && row.claimToken == Some(claim.claimToken) && row.eventId == claim.commit.eventId
  }

  /** Releasing a claim unlocks the row it holds, which can be claimed exactly from the given time on and says why, and
      leaves every other row alone; it reports success exactly when there was such a row. */
  lemma ReleasedRowsWait(
    t: Tables, claim: ClaimedWork, next: Instant, errorCode: string, op: Id, later: Instant, lease: nat)
    requires op in t.outbox
    ensures var (after, released) := Retry(t, claim, next, errorCode);
      && after == t.(outbox := after.outbox) && after.outbox.Keys == t.outbox.Keys
      && (released <==> exists other :: other in t.outbox && LockedBy(t.outbox[other], claim))
      && (!LockedBy(t.outbox[op], claim) ==> after.outbox[op] == t.outbox[op])
      && (LockedBy(t.outbox[op], claim) ==>
            && (Claimable(after.outbox[op], later, lease) <==> next <= later)
            && after.outbox[op] == t.outbox[op].(lockedAt := None, claimToken := None, nextAttemptAt := next,
                                                 errorCode := errorCode))
  {
  }

  // ----- Placing -----

  /** The request carries the draft's identifiers and time, and one item for each line, in order, with its identifier,
      product and quantity. */
  ghost predicate RequestCarries(request: CommitCommand, draft: Draft) {
    && request.schemaVersion == "1.0" && request.eventId == draft.eventId
    && request.operationId == draft.operationId && request.orderId == draft.orderId
    && request.occurredAt == draft.occurredAt && |request.lines| == |draft.lines|
    && forall i :: 0 <= i < |draft.lines| ==>
         request.lines[i] == Line(draft.lines[i].id, draft.lines[i].productId, draft.lines[i].quantity)
  }

  lemma RequestsCarryDrafts(draft: Draft)
    ensures RequestCarries(RequestOf(draft), draft)
  {
    ItemsAreLines(draft.lines);
  }

  ghost predicate OrderIsNew(order: Order, draft: Draft) {
    && order.checkoutId == draft.checkoutId && order.fingerprint == draft.fingerprint
    && order.customerId == draft.customerId && order.status.Submitted? && order.lines == draft.lines
  }

  /** Never attempted, and can be claimed exactly from the time of the order on. */
  ghost predicate RowIsNew(row: OutboxRow, draft: Draft) {
    && row.eventId == draft.eventId && row.orderId == draft.orderId && row.occurredAt == draft.occurredAt
    && row.attemptCount == 0 && row.claimToken == None && row.errorCode == ""
    && RequestCarries(row.payload, draft)
    && forall now, lease :: Claimable(row, now, lease) <==> draft.occurredAt <= now
  }

  /** A newly placed order leaves exactly four new rows: the order as drafted and submitted, its pending operation, its
      outbox row with the request, and one audit record. */
  lemma NewOrderIsRecorded(t: Tables, draft: Draft)
    requires Place(t, draft).1.Placed? && !Place(t, draft).1.replayed
    ensures var after, o, op := Place(t, draft).0, draft.orderId, draft.operationId;
      && o !in t.orders && o in after.orders && after.orders == t.orders[o := after.orders[o]]
      && OrderIsNew(after.orders[o], draft)
      && op !in t.operations && after.operations == t.operations[op := Operation(o, Pending, None, [])]
      && op !in t.outbox && op in after.outbox && after.outbox == t.outbox[op := after.outbox[op]]
      && RowIsNew(after.outbox[op], draft)
      && after.fulfillments == t.fulfillments && after.audits == t.audits + [Audit(OrderPlaced, o)]
  {
    RequestsCarryDrafts(draft);
  }

  /** A known checkout is answered with its order if fingerprint and customer agree, with a conflict if not, and nothing
      is written. */
  lemma KnownCheckoutIsCompared(t: Tables, draft: Draft, o: Id)
    requires CheckoutsUnique(t) && o in t.orders && t.orders[o].checkoutId == draft.checkoutId
    ensures Place(t, draft) ==
      (t, if t.orders[o].fingerprint == draft.fingerprint && t.orders[o].customerId == draft.customerId
          then Placed(o, true) else Conflicting)
  {
    assert CheckoutUsed(t, draft.checkoutId);
  }

  ghost predicate LineIdsDistinct(orders: map<Id, Order>) {
    forall o, p, x, y ::
      o in orders && p in orders && x in orders[o].lines && y in orders[p].lines && x.id == y.id ==> o == p && x == y
  }

  ghost predicate KeysDistinct(t: Tables) {
    && (forall o, p :: o in t.orders && p in t.orders && o != p ==> t.orders[o].checkoutId != t.orders[p].checkoutId)
    && (forall a, b :: a in t.outbox && b in t.outbox && a != b ==> t.outbox[a].eventId != t.outbox[b].eventId)
    && LineIdsDistinct(t.orders)
  }

  /** Whatever drafts are presented, no two orders ever share a checkout, no two outbox rows an event and no two lines an
      identifier. */
  lemma PlacingKeepsKeysDistinct(t: Tables, draft: Draft)
    requires KeysDistinct(t) && forall x, y :: x in draft.lines && y in draft.lines && x.id == y.id ==> x == y
    ensures KeysDistinct(Place(t, draft).0)
  {
    if Place(t, draft).1.Placed? && !Place(t, draft).1.replayed {
      NewLinesAreDistinct(t, draft);
    }
  }

  lemma NewLinesAreDistinct(t: Tables, draft: Draft)
    requires LineIdsDistinct(t.orders) && forall x, y :: x in draft.lines && y in draft.lines && x.id == y.id ==> x == y
    requires !LinesTaken(t, draft)
    ensures LineIdsDistinct(t.orders[draft.orderId := OrderRow(draft)])
  {
    var orders := t.orders[draft.orderId := OrderRow(draft)];
    forall o, p, x, y | o in orders && p in orders && x in orders[o].lines && y in orders[p].lines && x.id == y.id
      ensures o == p && x == y
    {
      assert y in draft.lines ==> !LineTaken(t, y);
      assert x in draft.lines ==> !LineTaken(t, x);
    }
  }

  // ----- Applying -----

  /** The row was published at `now`. */
  predicate PublishedAt(before: OutboxRow, after: OutboxRow, now: Instant) {
    after == before.(publishedAt := Some(now), lockedAt := None, claimToken := None, errorCode := "")
  }

  /** A result is applied exactly if it answers the claimed request, the operation is pending and its order submitted, the
      row is unpublished and held by the claim, and neither the result's event nor a fulfillment is there already. */
  ghost predicate CanApply(t: Tables, claim: ClaimedWork, result: CommitResult) {
    var op, o := result.operationId, result.orderId;
    && op == claim.commit.operationId && o == claim.commit.orderId
    && op in t.operations && t.operations[op].orderId == o && t.operations[op].status == Pending
    && o in t.orders && t.orders[o].status == Submitted
    && op in t.outbox && LockedBy(t.outbox[op], claim)
    && (forall other :: other in t.operations ==> t.operations[other].resultEventId != Some(result.eventId))
    && (result.status == Committed ==> o !in t.fulfillments)
  }

  /** An applied result confirms the order and starts its fulfillment, or rejects it and keeps the report; with it go the
      operation, the publication of the row and one audit record. A result that is not applied changes nothing. */
  lemma ApplyMovesTogether(t: Tables, claim: ClaimedWork, result: CommitResult, now: Instant)
    ensures var (after, outcome) := Apply(t, claim, result, now);
      var op, o, committed := result.operationId, result.orderId, result.status == Committed;
      && (outcome.Applied? <==> CanApply(t, claim, result))
      && (!outcome.Applied? ==> after == t)
      && (outcome.Applied? ==>
            && after.orders == t.orders[o := t.orders[o].(status := if committed then Confirmed else Rejected)]
            && after.operations == t.operations[op :=
                 Operation(o, Resolved(result.status), Some(result.eventId),
                           if committed then [] else result.unavailableItems)]
            && op in after.outbox && after.outbox == t.outbox[op := after.outbox[op]]
            && PublishedAt(t.outbox[op], after.outbox[op], now)
            && after.fulfillments == (if committed then t.fulfillments[o := Fulfillment(Preparing, 1, None)]
                                      else t.fulfillments)
            && after.audits == t.audits + [Audit(if committed then InventoryCommitted else OrderRejected, o)])
  {
  }

  /** Once a result was applied, another one for the operation, under whatever claim, is taken for the same if status,
      event and report agree and is a conflict if not; nothing changes either way. */
  lemma SecondResultIsCompared(
    t: Tables, claim: ClaimedWork, result: CommitResult, now: Instant, again: ClaimedWork, second: CommitResult, later: Instant)
    requires Apply(t, claim, result, now).1.Applied?
    requires again.commit.operationId == second.operationId == result.operationId
    requires again.commit.orderId == second.orderId == result.orderId
    ensures var after := Apply(t, claim, result, now).0;
      var same := second.status == result.status && second.eventId == result.eventId
                  && second.unavailableItems == (if result.status == Committed then [] else result.unavailableItems);
      Apply(after, again, second, later) == (after, if same then Replayed else OperationConflict)
  {
  }

  // ----- Fulfilling -----

  function Rank(status: FulfillmentStatus): nat {
    match status case Preparing => 0 case Delivering => 1 case Delivered => 2
  }

  /** A cashier can move a confirmed order to the next status, or repeat the move that led to the present one. Only the
      former changes anything: the status, one more version, one audit record, and the start of the delivery, which is
      kept from then on and which the end of the delivery may not precede. */
  lemma AdvanceIsOneStep(t: Tables, o: Id, target: FulfillmentStatus, now: Instant)
    ensures var (after, outcome) := Advance(t, o, target, now);
      var there := o in t.orders && t.orders[o].status == Confirmed && o in t.fulfillments;
      && (outcome.NoOrder? <==> !there)
      && (there ==>
            var f := t.fulfillments[o];
            var repeats, steps := Rank(target) == Rank(f.status) > 0, Rank(target) == Rank(f.status) + 1;
            var tooEarly := steps && target == Delivered && (f.deliveringAt == None || now < f.deliveringAt.value);
            && (outcome.InvalidTransition? <==> !repeats && !steps)
            && (outcome.AdvanceFailed? <==> tooEarly)
            && (after == if steps && !tooEarly
                then t.(fulfillments := t.fulfillments[o :=
                          Fulfillment(target, f.version + 1, if target == Delivering then Some(now) else f.deliveringAt)],
                        audits := t.audits + [Audit(FulfillmentAdvanced, o)])
                else t))
      && (!there ==> after == t)
  {
  }
}
