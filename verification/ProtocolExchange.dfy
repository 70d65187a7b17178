/** The two steps that cross between the services: calling the adapter and applying its reply. */
module ProtocolExchange {
  import opened Basics
  import opened CommitDomain
  import opened CommitDecision
  import opened OrderingDomain
  import opened OrderingStore
  import Inventory = InventoryStore
  import opened CommitTheorems
  import opened Canonical
  import opened Protocol
  import opened ProtocolInvariant
  import opened ProtocolProofs

  // ----- What the ordering side guarantees about requests -----

  lemma RequestIsItsDrafts(callers: map<Id, Caller>, t: Tables, op: Id)
    requires Drafts(callers) && Backed(callers, t) && op in t.outbox
    ensures op in t.operations && t.operations[op].orderId in t.orders
    ensures var request := t.outbox[op].payload;
      && ValidCommand(request) && request.operationId == op && request.eventId == t.outbox[op].eventId
      && request.orderId == t.operations[op].orderId
  {
    assert OperationBacked(callers, t, op);
    assert ValidDraft(callers[t.operations[op].orderId].draft);
  }

  lemma EventsAreUnique(callers: map<Id, Caller>, t: Tables)
    requires Drafts(callers) && Backed(callers, t)
    ensures EventsUnique(t)
  {
    forall a, b | a in t.outbox && b in t.outbox && a != b
      ensures t.outbox[a].eventId != t.outbox[b].eventId
    {
      assert OperationBacked(callers, t, a) && OperationBacked(callers, t, b);
      assert Disjoint(callers[t.operations[a].orderId].draft, callers[t.operations[b].orderId].draft);
    }
  }

  /** A receipt carries its request's event identifier, and a payload carries its row's. */
  ghost predicate EventsMatch(receipts: map<Id, Inventory.Receipt>, outbox: map<Id, OutboxRow>) {
    && (forall op :: op in outbox ==> outbox[op].payload.eventId == outbox[op].eventId)
    && (forall op :: op in receipts ==> op in outbox && receipts[op].requestEventId == outbox[op].payload.eventId)
  }

  lemma InvMatchesEvents(s: System)
    requires OrderingInv(s) && Receipts(s.inv.receipts, s.decidedOn, s.ord.outbox)
    ensures EventsMatch(s.inv.receipts, s.ord.outbox)
  {
    forall op | op in s.ord.outbox
      ensures s.ord.outbox[op].payload.eventId == s.ord.outbox[op].eventId
    {
      RequestIsItsDrafts(s.callers, s.ord, op);
    }
    forall op | op in s.inv.receipts
      ensures op in s.ord.outbox && s.inv.receipts[op].requestEventId == s.ord.outbox[op].payload.eventId
    {
      assert ReceiptAt(s.inv.receipts, s.decidedOn, s.ord.outbox, op);
    }
  }

  lemma RequestEventIsNotTaken(t: Tables, receipts: map<Id, Inventory.Receipt>, op: Id, eventId: Id)
    requires EventsUnique(t) && EventsMatch(receipts, t.outbox) && op in t.outbox && op !in receipts
    requires forall other :: other in receipts ==> receipts[other].result.eventId != eventId
    ensures !Inventory.EventTaken(receipts, t.outbox[op].payload.eventId, eventId)
  {
  }

  // ----- Movements of one commit -----

  lemma {:induction false} MovementsOfConcat(xs: seq<Inventory.Movement>, ys: seq<Inventory.Movement>, op: Id)
    ensures MovementsOf(xs + ys, op) == MovementsOf(xs, op) + MovementsOf(ys, op)
  {
    if ys == [] {
      assert xs + ys == xs;
    } else {
      assert (xs + ys)[..|xs + ys| - 1] == xs + ys[..|ys| - 1];
      MovementsOfConcat(xs, ys[..|ys| - 1], op);
    }
  }

  lemma {:induction false} MovementsOfOne(movements: seq<Inventory.Movement>, owner: Id, op: Id)
    requires forall m :: m in movements ==> m.operationId == owner
    ensures MovementsOf(movements, op) == if op == owner then movements else []
  {
    if movements != [] {
      MovementsOfOne(movements[..|movements| - 1], owner, op);
      assert movements == movements[..|movements| - 1] + [movements[|movements| - 1]];
    }
  }

  // ----- Calling the adapter -----

  lemma ServeRefused(db: Inventory.Database, command: CommitCommand, eventId: Id, now: Instant)
    requires ValidCommand(command) && command.operationId !in db.receipts && Overflows(db.pos, command.lines)
    ensures Serve(db, command, eventId, now) == (db, None)
  {
  }

  function ReceiptFor(command: CommitCommand, fingerprint: string, result: CommitResult): Inventory.Receipt {
    Inventory.Receipt(command.eventId, command.orderId, fingerprint, result)
  }

  ghost function SalesFor(pos: Pos, command: CommitCommand, result: CommitResult): seq<Inventory.Movement> {
    if result.status.Committed? then Inventory.SaleMovements(pos, command, result.occurredAt) else []
  }

  lemma ServeFirst(db: Inventory.Database, command: CommitCommand, eventId: Id, now: Instant)
    requires ValidCommand(command) && command.operationId !in db.receipts && !Overflows(db.pos, command.lines)
    requires !Inventory.EventTaken(db.receipts, command.eventId, eventId) && eventId != NIL && now != 0
    ensures var (after, answer) := Serve(db, command, eventId, now);
      var result := Inventory.Decide(db.pos, command, eventId, now);
      && answer == Some(result)
      && after == Inventory.Commit(db, command, CanonicalText(command), eventId, now).0
      && after.receipts == db.receipts[command.operationId := ReceiptFor(command, CanonicalText(command), result)]
      && after.movements == db.movements + SalesFor(db.pos, command, result)
  {
    DecisionIsAcceptable(db.pos, command, eventId, now);
    assert db.movements + [] == db.movements;
  }

  /** A call either finds the operation's receipt, or fails and changes nothing, or is the operation's first. */
  datatype CallKind = Repeated | Refused | First

  ghost function KindOf(s: System, claim: ClaimedWork): CallKind {
    if claim.commit.operationId in s.inv.receipts then Repeated
    else if Overflows(s.inv.pos, claim.commit.lines) then Refused
    else First
  }

  lemma ClaimIsRequest(s: System, claim: ClaimedWork)
    requires Inv(s) && claim in s.claims
    ensures claim.commit.operationId in s.ord.outbox
    ensures claim.commit == s.ord.outbox[claim.commit.operationId].payload
    ensures ValidCommand(claim.commit)
  {
    assert LayerHolds(OrderingLayer, s) && LayerHolds(ExchangeLayer, s);
    assert ClaimBacked(claim, s.ord.outbox);
    RequestIsItsDrafts(s.callers, s.ord, claim.commit.operationId);
  }

  /** The receipt of an operation answers every later presentation of the same request. */
  ghost predicate Answerable(receipts: map<Id, Inventory.Receipt>, request: CommitCommand) {
    && ValidCommand(request) && request.operationId in receipts
    && var receipt := receipts[request.operationId];
       && receipt.fingerprint == CanonicalText(request)
       && ValidResult(receipt.result) && AcceptableReply(receipt.result, request)
  }

  lemma ReceiptsAnswer(receipts: map<Id, Inventory.Receipt>, decidedOn: map<Id, Pos>, outbox: map<Id, OutboxRow>, op: Id)
    requires Receipts(receipts, decidedOn, outbox) && op in receipts
    ensures op in outbox && Answerable(receipts, outbox[op].payload)
  {
    assert ReceiptAt(receipts, decidedOn, outbox, op);
  }

  lemma ClaimIsAnswerable(s: System, claim: ClaimedWork)
    requires Inv(s) && claim in s.claims && claim.commit.operationId in s.inv.receipts
    ensures Answerable(s.inv.receipts, claim.commit)
  {
    assert LayerHolds(InventoryLayer, s);
    ClaimIsRequest(s, claim);
    ReceiptsAnswer(s.inv.receipts, s.decidedOn, s.ord.outbox, claim.commit.operationId);
  }

  lemma AnswerableCall(s: System, claim: ClaimedWork, eventId: Id, now: Instant)
    ensures Answerable(s.inv.receipts, claim.commit) ==>
      Called(s, claim, eventId, now) ==
        s.(replies := s.replies + {Reply(claim, s.inv.receipts[claim.commit.operationId].result)})
  {
  }

  /** In a reachable state a repeated call is answered from the receipt and changes nothing else. */
  lemma RepeatedCall(s: System, claim: ClaimedWork, eventId: Id, now: Instant)
    requires Inv(s) && claim in s.claims && KindOf(s, claim).Repeated?
    ensures Called(s, claim, eventId, now) ==
      s.(replies := s.replies + {Reply(claim, s.inv.receipts[claim.commit.operationId].result)})
  {
    ClaimIsAnswerable(s, claim);
    AnswerableCall(s, claim, eventId, now);
  }

  /** In a reachable state the first call of an operation that is answered at all is never a conflict: it is
      decided on the current POS tables and leaves exactly its receipt and its movements behind. */
  lemma FirstCall(s: System, claim: ClaimedWork, eventId: Id, now: Instant)
    requires Inv(s) && Enabled(s, CallAdapter(claim, eventId, now)) && KindOf(s, claim).First?
    ensures ValidCommand(claim.commit)
    ensures var (inv, answer) := Serve(s.inv, claim.commit, eventId, now);
      var result := Inventory.Decide(s.inv.pos, claim.commit, eventId, now);
      && answer == Some(result)
      && inv == Inventory.Commit(s.inv, claim.commit, CanonicalText(claim.commit), eventId, now).0
      && inv.receipts == s.inv.receipts[claim.commit.operationId :=
           ReceiptFor(claim.commit, CanonicalText(claim.commit), result)]
      && inv.movements == s.inv.movements + SalesFor(s.inv.pos, claim.commit, result)
      && AcceptableReply(result, claim.commit)
  {
    assert LayerHolds(OrderingLayer, s) && LayerHolds(InventoryLayer, s);
    var op := claim.commit.operationId;
    ClaimIsRequest(s, claim);
    assert !Inventory.EventTaken(s.inv.receipts, claim.commit.eventId, eventId) by {
      EventsAreUnique(s.callers, s.ord);
      InvMatchesEvents(s);
      RequestEventIsNotTaken(s.ord, s.inv.receipts, op, eventId);
    }
    ServeFirst(s.inv, claim.commit, eventId, now);
    DecisionIsAcceptable(s.inv.pos, claim.commit, eventId, now);
  }

  lemma RefusedCall(s: System, claim: ClaimedWork, eventId: Id, now: Instant)
    requires Inv(s) && claim in s.claims && KindOf(s, claim).Refused?
    ensures Serve(s.inv, claim.commit, eventId, now) == (s.inv, None)
  {
    ClaimIsRequest(s, claim);
    ServeRefused(s.inv, claim.commit, eventId, now);
  }

  lemma CallKeepsInv(s: System, claim: ClaimedWork, eventId: Id, now: Instant)
    requires Inv(s) && Enabled(s, CallAdapter(claim, eventId, now))
    ensures Inv(Called(s, claim, eventId, now))
  {
    match KindOf(s, claim) {
      case Repeated => RepeatedCallKeepsInv(s, claim, eventId, now);
      case Refused =>
        RefusedCall(s, claim, eventId, now);
        SilentCall(s, claim, eventId, now);
      case First => FirstCallKeepsInv(s, claim, eventId, now);
    }
  }

  lemma SilentCall(s: System, claim: ClaimedWork, eventId: Id, now: Instant)
    requires Serve(s.inv, claim.commit, eventId, now) == (s.inv, None)
    ensures Called(s, claim, eventId, now) == s
  {
  }

  lemma AnsweredCall(s: System, claim: ClaimedWork, eventId: Id, now: Instant, inv: Inventory.Database, result: CommitResult)
    requires Serve(s.inv, claim.commit, eventId, now) == (inv, Some(result)) && AcceptableReply(result, claim.commit)
    ensures var called := Called(s, claim, eventId, now);
      && called == s.(inv := inv, replies := s.replies + {Reply(claim, result)}, decidedOn := called.decidedOn)
      && (inv.receipts.Keys == s.inv.receipts.Keys ==> called.decidedOn == s.decidedOn)
      && (inv.receipts.Keys != s.inv.receipts.Keys ==>
            called.decidedOn == s.decidedOn[claim.commit.operationId := s.inv.pos])
  {
  }

  lemma RepeatedCallKeepsInv(s: System, claim: ClaimedWork, eventId: Id, now: Instant)
    requires Inv(s) && claim in s.claims && claim.commit.operationId in s.inv.receipts
    ensures Inv(Called(s, claim, eventId, now))
  {
    RepeatedCall(s, claim, eventId, now);
    OneMoreReplyKeepsInv(s, Called(s, claim, eventId, now), claim);
  }

  lemma OneMoreReplyKeepsInv(s: System, s': System, claim: ClaimedWork)
    requires Inv(s) && claim in s.claims && claim.commit.operationId in s.inv.receipts
    requires s' == s.(replies := s.replies + {Reply(claim, s.inv.receipts[claim.commit.operationId].result)})
    ensures Inv(s')
  {
    assert LayerHolds(OrderingLayer, s) && LayerHolds(InventoryLayer, s) && LayerHolds(ExchangeLayer, s);
    OneMoreReply(s.replies, s.claims, s.inv.receipts, Reply(claim, s.inv.receipts[claim.commit.operationId].result));
    LayersMakeInv(s');
  }

  lemma OneMoreReply(
    replies: set<Reply>, claims: set<ClaimedWork>, receipts: map<Id, Inventory.Receipt>, reply: Reply)
    requires Replies(replies, claims, receipts) && ReplyBacked(reply, claims, receipts)
    ensures Replies(replies + {reply}, claims, receipts)
  {
  }

  lemma FirstCallKeepsInv(s: System, claim: ClaimedWork, eventId: Id, now: Instant)
    requires Inv(s) && Enabled(s, CallAdapter(claim, eventId, now)) && KindOf(s, claim).First?
    ensures Inv(Called(s, claim, eventId, now))
  {
    assert LayerHolds(OrderingLayer, s);
    FirstCallKeepsInventory(s, claim, eventId, now);
    FirstCallKeepsExchange(s, claim, eventId, now);
    LayersMakeInv(Called(s, claim, eventId, now));
  }

  /** What the first call changes, field by field. */
  lemma FirstCallIs(s: System, claim: ClaimedWork, eventId: Id, now: Instant)
    requires Inv(s) && Enabled(s, CallAdapter(claim, eventId, now)) && KindOf(s, claim).First?
    ensures ValidCommand(claim.commit)
    ensures var op, called := claim.commit.operationId, Called(s, claim, eventId, now);
      var result := Inventory.Decide(s.inv.pos, claim.commit, eventId, now);
      && called == s.(inv := Inventory.Commit(s.inv, claim.commit, CanonicalText(claim.commit), eventId, now).0,
                      replies := s.replies + {Reply(claim, result)}, decidedOn := s.decidedOn[op := s.inv.pos])
      && called.inv.receipts == s.inv.receipts[op := ReceiptFor(claim.commit, CanonicalText(claim.commit), result)]
      && called.inv.movements == s.inv.movements + SalesFor(s.inv.pos, claim.commit, result)
  {
    FirstCall(s, claim, eventId, now);
    var result := Inventory.Decide(s.inv.pos, claim.commit, eventId, now);
    var inv := Inventory.Commit(s.inv, claim.commit, CanonicalText(claim.commit), eventId, now).0;
    AnsweredCall(s, claim, eventId, now, inv, result);
    assert claim.commit.operationId in inv.receipts.Keys;
  }

  lemma FirstCallKeepsInventory(s: System, claim: ClaimedWork, eventId: Id, now: Instant)
    requires Inv(s) && Enabled(s, CallAdapter(claim, eventId, now)) && KindOf(s, claim).First?
    ensures InventoryInv(Called(s, claim, eventId, now))
  {
    assert LayerHolds(InventoryLayer, s);
    ClaimIsRequest(s, claim);
    FirstCallIs(s, claim, eventId, now);
    NewDecisionKeepsReceipts(
      s.inv.receipts, s.decidedOn, s.ord.outbox, claim.commit, s.inv.pos, eventId, now);
    NewMovementsAreOnce(
      s.inv, s.decidedOn, s.ord.outbox, claim.commit,
      ReceiptFor(claim.commit, CanonicalText(claim.commit), Inventory.Decide(s.inv.pos, claim.commit, eventId, now)));
    FirstCallKeepsStock(s, claim, eventId, now);
  }

  lemma NewDecisionKeepsReceipts(
    receipts: map<Id, Inventory.Receipt>, decidedOn: map<Id, Pos>, outbox: map<Id, OutboxRow>, command: CommitCommand,
    pos: Pos, eventId: Id, now: Instant)
    requires Receipts(receipts, decidedOn, outbox) && command.operationId !in receipts && ValidCommand(command)
    requires command.operationId in outbox && outbox[command.operationId].payload == command && eventId != NIL && now != 0
    requires forall op :: op in receipts ==> receipts[op].result.eventId != eventId
    ensures var receipt := ReceiptFor(command, CanonicalText(command), Inventory.Decide(pos, command, eventId, now));
      Receipts(receipts[command.operationId := receipt], decidedOn[command.operationId := pos], outbox)
  {
    var receipt := ReceiptFor(command, CanonicalText(command), Inventory.Decide(pos, command, eventId, now));
    DecisionIsAcceptable(pos, command, eventId, now);
    NewReceiptIsBacked(receipts, decidedOn, outbox, command, receipt, pos);
    NewEventStaysUnique(receipts, command.operationId, receipt);
  }

  lemma FirstCallKeepsStock(s: System, claim: ClaimedWork, eventId: Id, now: Instant)
    requires StockAccounted(s.inv, s.start, s.outside) && ValidCommand(claim.commit)
    ensures StockAccounted(
      Inventory.Commit(s.inv, claim.commit, CanonicalText(claim.commit), eventId, now).0, s.start, s.outside)
  {
    var inv := Inventory.Commit(s.inv, claim.commit, CanonicalText(claim.commit), eventId, now).0;
    CommitConservesStock(s.inv, claim.commit, CanonicalText(claim.commit), eventId, now);
    forall id
      ensures Accounted(inv, s.start, s.outside, id)
    {
      assert Accounted(s.inv, s.start, s.outside, id);
    }
  }

  lemma NewReceiptIsBacked(
    receipts: map<Id, Inventory.Receipt>, decidedOn: map<Id, Pos>, outbox: map<Id, OutboxRow>, command: CommitCommand,
    receipt: Inventory.Receipt, pos: Pos)
    requires AllBacked(receipts, decidedOn, outbox) && command.operationId !in receipts
    requires command.operationId in outbox && outbox[command.operationId].payload == command
    requires ReceiptBacked(receipt, command.operationId, command, pos)
    ensures AllBacked(receipts[command.operationId := receipt], decidedOn[command.operationId := pos], outbox)
  {
    var after, decided := receipts[command.operationId := receipt], decidedOn[command.operationId := pos];
    forall op | op in after
      ensures ReceiptAt(after, decided, outbox, op)
    {
      assert op != command.operationId ==> ReceiptAt(receipts, decidedOn, outbox, op);
    }
  }

  lemma NewEventStaysUnique(receipts: map<Id, Inventory.Receipt>, op: Id, receipt: Inventory.Receipt)
    requires ResultEventsUnique(receipts)
    requires forall a :: a in receipts ==> receipts[a].result.eventId != receipt.result.eventId
    ensures ResultEventsUnique(receipts[op := receipt])
  {
  }

  lemma NewMovementsAreOnce(
    inv: Inventory.Database, decidedOn: map<Id, Pos>, outbox: map<Id, OutboxRow>, command: CommitCommand,
    receipt: Inventory.Receipt)
    requires Movements(inv.movements, inv.receipts, decidedOn, outbox)
    requires command.operationId !in inv.receipts
    requires command.operationId in outbox && outbox[command.operationId].payload == command
    ensures Movements(
      inv.movements + SalesFor(inv.pos, command, receipt.result), inv.receipts[command.operationId := receipt],
      decidedOn[command.operationId := inv.pos], outbox)
  {
    var op, sales := command.operationId, SalesFor(inv.pos, command, receipt.result);
    var movements, receipts := inv.movements + sales, inv.receipts[op := receipt];
    var decided := decidedOn[op := inv.pos];
    forall p
      ensures MovedOnce(movements, receipts, decided, outbox, p)
    {
      assert MovedOnce(inv.movements, inv.receipts, decidedOn, outbox, p);
      MovementsOfConcat(inv.movements, sales, p);
      MovementsOfOne(sales, op, p);
    }
  }

  lemma FirstCallKeepsExchange(s: System, claim: ClaimedWork, eventId: Id, now: Instant)
    requires Inv(s) && Enabled(s, CallAdapter(claim, eventId, now)) && KindOf(s, claim).First?
    ensures ExchangeInv(Called(s, claim, eventId, now))
  {
    assert LayerHolds(ExchangeLayer, s);
    FirstCallIs(s, claim, eventId, now);
    var result := Inventory.Decide(s.inv.pos, claim.commit, eventId, now);
    var receipt := ReceiptFor(claim.commit, CanonicalText(claim.commit), result);
    MoreReceipts(
      s.ord.operations, s.replies, s.claims, s.inv.receipts, claim.commit.operationId, receipt, Reply(claim, result));
  }

  lemma MoreReceipts(
    operations: map<Id, Operation>, replies: set<Reply>, claims: set<ClaimedWork>, receipts: map<Id, Inventory.Receipt>,
    op: Id, receipt: Inventory.Receipt, reply: Reply)
    requires Results(operations, receipts) && Replies(replies, claims, receipts) && op !in receipts
    requires reply.claim in claims && reply.claim.commit.operationId == op && reply.result == receipt.result
    ensures Results(operations, receipts[op := receipt])
    ensures Replies(replies + {reply}, claims, receipts[op := receipt])
  {
  }

  // ----- Applying a reply -----

  /** In a reachable state, applying a reply of the adapter resolves the operation, finds it resolved the same
      way, or finds the claim lost; it never meets a conflict, a missing row or a constraint. */
  lemma ApplyOutcomeIs(s: System, reply: Reply, now: Instant)
    requires Inv(s) && reply in s.replies
    ensures var op := reply.claim.commit.operationId; var (t, outcome) := Apply(s.ord, reply.claim, reply.result, now);
      && op == reply.result.operationId && op in s.ord.operations && op in s.ord.outbox
      && s.ord.operations[op].orderId == reply.result.orderId && reply.result.orderId in s.ord.orders
      && outcome == (if !s.ord.operations[op].status.Pending? then Replayed
                     else if s.ord.outbox[op].claimToken != Some(reply.claim.claimToken) then ClaimLost
                     else Applied)
      && t == (if outcome.Applied? then Resolve(s.ord, reply.result, now) else s.ord)
  {
    assert LayerHolds(OrderingLayer, s) && LayerHolds(InventoryLayer, s) && LayerHolds(ExchangeLayer, s);
    var op := reply.claim.commit.operationId;
    assert ReplyBacked(reply, s.claims, s.inv.receipts);
    assert ReceiptAt(s.inv.receipts, s.decidedOn, s.ord.outbox, op);
    assert ClaimBacked(reply.claim, s.ord.outbox);
    RequestIsItsDrafts(s.callers, s.ord, op);
    assert InStep(s.ord, op);
    assert OrderInStep(s.ord, reply.result.orderId);
    if s.ord.operations[op].status.Pending? {
      ResultEventIsUnused(s, op);
    }
  }

  lemma ResultEventIsUnused(s: System, op: Id)
    requires Inv(s) && op in s.ord.operations && s.ord.operations[op].status.Pending? && op in s.inv.receipts
    ensures !ResultEventUsed(s.ord, s.inv.receipts[op].result.eventId)
  {
    assert LayerHolds(OrderingLayer, s) && LayerHolds(InventoryLayer, s) && LayerHolds(ExchangeLayer, s);
    PendingEventIsUnused(s.ord, s.inv.receipts, op);
  }

  lemma PendingEventIsUnused(t: Tables, receipts: map<Id, Inventory.Receipt>, op: Id)
    requires Lifecycle(t) && ResultEventsUnique(receipts) && Results(t.operations, receipts)
    requires op in t.operations && t.operations[op].status.Pending? && op in receipts
    ensures !ResultEventUsed(t, receipts[op].result.eventId)
  {
    forall other | other in t.operations && t.operations[other].resultEventId.Some?
      ensures t.operations[other].resultEventId.value != receipts[op].result.eventId
    {
      assert InStep(t, other);
      assert other in receipts && SameResult(t.operations[other], receipts[other].result);
    }
  }

  lemma ApplyKeepsInv(s: System, reply: Reply, now: Instant)
    requires Inv(s) && Enabled(s, ApplyReply(reply, now))
    ensures Inv(Next(s, ApplyReply(reply, now)))
  {
    assert LayerHolds(OrderingLayer, s) && LayerHolds(InventoryLayer, s) && LayerHolds(ExchangeLayer, s);
    var op := reply.claim.commit.operationId;
    ApplyOutcomeIs(s, reply, now);
    if Apply(s.ord, reply.claim, reply.result, now).1.Applied? {
      var u := Resolve(s.ord, reply.result, now);
      assert ReplyBacked(reply, s.claims, s.inv.receipts);
      assert ReceiptAt(s.inv.receipts, s.decidedOn, s.ord.outbox, op);
      ResolveRelabels(s.ord, reply.result, now);
      ResolveKeepsLifecycle(s.callers, s.ord, reply.result, now);
      ResolveKeepsClaims(s.claims, s.ord, reply.result, now);
      ResolveKeepsResults(s.ord, s.inv.receipts, reply.result, now);
      RelabelKeepsInv(s, u, s.claims);
    }
  }

  lemma ResolveRelabels(t: Tables, result: CommitResult, now: Instant)
    requires result.operationId in t.operations && result.operationId in t.outbox && result.orderId in t.orders
    ensures Relabelled(t, Resolve(t, result, now))
  {
  }

  lemma ResolveKeepsLifecycle(callers: map<Id, Caller>, t: Tables, result: CommitResult, now: Instant)
    requires Backed(callers, t) && Lifecycle(t)
    requires result.operationId in t.operations && result.operationId in t.outbox && result.orderId in t.orders
    requires t.operations[result.operationId].orderId == result.orderId && t.operations[result.operationId].status.Pending?
    ensures Lifecycle(Resolve(t, result, now))
  {
    var u := Resolve(t, result, now);
    forall op | op in u.operations
      ensures InStep(u, op)
    {
      assert InStep(t, op) && InStep(t, result.operationId);
      if op != result.operationId {
        OperationsDiffer(callers, t, op, result.operationId);
      }
      ResolveKeepsOperation(t, result, now, op);
    }
    ResolveKeepsOrders(t, result, now);
  }

  lemma ResolveKeepsOperation(t: Tables, result: CommitResult, now: Instant, op: Id)
    requires result.operationId in t.operations && result.operationId in t.outbox && result.orderId in t.orders
    requires InStep(t, op) && InStep(t, result.operationId)
    requires op == result.operationId || t.operations[op].orderId != result.orderId
    requires t.operations[result.operationId].orderId == result.orderId
    ensures InStep(Resolve(t, result, now), op)
  {
  }

  lemma OperationsDiffer(callers: map<Id, Caller>, t: Tables, a: Id, b: Id)
    requires Backed(callers, t) && a in t.operations && b in t.operations && a != b
    ensures t.operations[a].orderId != t.operations[b].orderId
  {
  }

  lemma ResolveKeepsOrders(t: Tables, result: CommitResult, now: Instant)
    requires Lifecycle(t)
    requires result.operationId in t.operations && result.operationId in t.outbox && result.orderId in t.orders
    requires t.operations[result.operationId].orderId == result.orderId && t.operations[result.operationId].status.Pending?
    ensures forall o :: OrderInStep(Resolve(t, result, now), o)
  {
    assert InStep(t, result.operationId);
    forall o
      ensures OrderInStep(Resolve(t, result, now), o)
    {
      assert OrderInStep(t, o);
      ResolveKeepsOrder(t, result, now, o);
    }
  }

  lemma ResolveKeepsOrder(t: Tables, result: CommitResult, now: Instant, o: Id)
    requires result.operationId in t.operations && result.operationId in t.outbox && result.orderId in t.orders
    requires OrderInStep(t, o) && t.orders[result.orderId].status.Submitted?
    ensures OrderInStep(Resolve(t, result, now), o)
  {
  }

  lemma ResolveKeepsClaims(claims: set<ClaimedWork>, t: Tables, result: CommitResult, now: Instant)
    requires Claiming(claims, t.outbox)
    requires result.operationId in t.operations && result.operationId in t.outbox && result.orderId in t.orders
    ensures Claiming(claims, Resolve(t, result, now).outbox)
  {
  }

  lemma ResolveKeepsResults(t: Tables, receipts: map<Id, Inventory.Receipt>, result: CommitResult, now: Instant)
    requires Results(t.operations, receipts) && result.operationId in receipts
    requires receipts[result.operationId].result == result
    requires result.operationId in t.operations && result.operationId in t.outbox && result.orderId in t.orders
    requires ValidResult(result)
    ensures Results(Resolve(t, result, now).operations, receipts)
  {
  }

  // ----- Every step, every run -----

  lemma StepKeepsInv(s: System, a: Action)
    requires Inv(s) && Enabled(s, a)
    ensures Inv(Next(s, a))
  {
    match a
    case Arrive(draft) => ArriveKeepsInv(s, draft);
    case Lookup(caller) => LookupKeepsInv(s, caller);
    case InsertDraft(caller) => InsertKeepsInv(s, caller);
    case LookupAgain(caller) => LookupAgainKeepsInv(s, caller);
    case ClaimWork(op, token, now, lease) => ClaimKeepsInv(s, op, token, now, lease);
    case CallAdapter(claim, eventId, now) => CallKeepsInv(s, claim, eventId, now);
    case ApplyReply(reply, now) => ApplyKeepsInv(s, reply, now);
    case RetryClaim(claim, next, errorCode) => RetryKeepsInv(s, claim, next, errorCode);
    case AdvanceOrder(order, target, now) => AdvanceKeepsInv(s, order, target, now);
    case ChangePos(pos) => ChangePosKeepsInv(s, pos);
  }

  lemma {:induction false} RunKeepsInv(states: seq<System>, actions: seq<Action>, i: nat)
    requires IsRun(states, actions) && i < |states|
    ensures Inv(states[i])
  {
    if i == 0 {
      InitHasInv(states[0]);
    } else {
      RunKeepsInv(states, actions, i - 1);
      assert StepAt(states, actions, i - 1);
      StepKeepsInv(states[i - 1], actions[i - 1]);
    }
  }
}
