/** Every step of the protocol keeps the invariant. */
module ProtocolProofs {
  import opened Basics
  import opened CommitDomain
  import opened CommitDecision
  import opened OrderingDomain
  import opened OrderingStore
  import Inventory = InventoryStore
  import opened CommitTheorems
  import opened Canonical
  import opened Protocol
  import opened ProtocolInvariant

  // ----- Changes that keep every identity -----

  predicate SameRow(a: OutboxRow, b: OutboxRow) {
    a.eventId == b.eventId && a.orderId == b.orderId && a.payload == b.payload
  }

  /** The same rows, payloads included. */
  ghost predicate SameRequests(a: map<Id, OutboxRow>, b: map<Id, OutboxRow>) {
    a.Keys == b.Keys && forall op :: op in a ==> SameRow(a[op], b[op])
  }

  /** Only statuses and bookkeeping differ. */
  ghost predicate Relabelled(t: Tables, u: Tables) {
    && SameRequests(t.outbox, u.outbox)
    && t.orders.Keys == u.orders.Keys
    && (forall o :: o in t.orders ==> u.orders[o] == t.orders[o].(status := u.orders[o].status))
    && t.operations.Keys == u.operations.Keys
    && (forall op :: op in t.operations ==> u.operations[op].orderId == t.operations[op].orderId)
  }

  lemma RelabelKeepsBacking(callers: map<Id, Caller>, t: Tables, u: Tables)
    requires Backed(callers, t) && Relabelled(t, u)
    ensures Backed(callers, u)
  {
  }

  lemma RelabelKeepsAnswers(callers: map<Id, Caller>, t: Tables, u: Tables)
    requires Answers(callers, t.orders) && OneOrderPerCheckout(t.orders) && Relabelled(t, u)
    ensures Answers(callers, u.orders) && OneOrderPerCheckout(u.orders)
  {
  }

  lemma SameRequestsKeepReceipts(
    receipts: map<Id, Inventory.Receipt>, decidedOn: map<Id, Pos>, a: map<Id, OutboxRow>, b: map<Id, OutboxRow>)
    requires Receipts(receipts, decidedOn, a) && (forall op :: op in a ==> op in b && SameRow(a[op], b[op]))
    ensures Receipts(receipts, decidedOn, b)
  {
  }

  lemma SameRequestsKeepMovements(
    movements: seq<Inventory.Movement>, receipts: map<Id, Inventory.Receipt>, decidedOn: map<Id, Pos>,
    a: map<Id, OutboxRow>, b: map<Id, OutboxRow>)
    requires Movements(movements, receipts, decidedOn, a)
    requires forall op :: op in receipts ==> op in a && op in b && SameRow(a[op], b[op])
    ensures Movements(movements, receipts, decidedOn, b)
  {
    forall op
      ensures MovedOnce(movements, receipts, decidedOn, b, op)
    {
      assert MovedOnce(movements, receipts, decidedOn, a, op);
    }
  }

  /** A change of the ordering tables that keeps identities, put together from what it does to each layer. */
  lemma RelabelKeepsInv(s: System, u: Tables, claims: set<ClaimedWork>)
    requires Inv(s) && Relabelled(s.ord, u) && Lifecycle(u)
    requires s.claims <= claims && Claiming(claims, u.outbox)
    requires Results(u.operations, s.inv.receipts)
    ensures Inv(s.(ord := u, claims := claims))
  {
    assert LayerHolds(OrderingLayer, s) && LayerHolds(InventoryLayer, s) && LayerHolds(ExchangeLayer, s);
    RelabelKeepsBacking(s.callers, s.ord, u);
    RelabelKeepsAnswers(s.callers, s.ord, u);
    RelabelKeepsInventory(s, u);
    MoreClaimsKeepReplies(s.replies, s.claims, claims, s.inv.receipts);
    LayersMakeInv(s.(ord := u, claims := claims));
  }

  lemma RelabelKeepsInventory(s: System, u: Tables)
    requires InventoryInv(s) && Relabelled(s.ord, u)
    ensures InventoryInv(s.(ord := u))
  {
    ReceiptsAreForRows(s.inv.receipts, s.decidedOn, s.ord.outbox);
    SameRequestsKeepReceipts(s.inv.receipts, s.decidedOn, s.ord.outbox, u.outbox);
    SameRequestsKeepMovements(s.inv.movements, s.inv.receipts, s.decidedOn, s.ord.outbox, u.outbox);
  }

  lemma MoreClaimsKeepReplies(
    replies: set<Reply>, claims: set<ClaimedWork>, more: set<ClaimedWork>, receipts: map<Id, Inventory.Receipt>)
    requires Replies(replies, claims, receipts) && claims <= more
    ensures Replies(replies, more, receipts)
  {
  }

  lemma CountAppend(audits: seq<Audit>, last: Audit, action: AuditAction, o: Id)
    ensures CountAudits(audits + [last], action, o) ==
              CountAudits(audits, action, o) + (if last == Audit(action, o) then 1 else 0)
  {
  }

  lemma InitHasInv(s: System)
    requires Init(s)
    ensures Inv(s)
  {
  }

  // ----- Placing -----

  /** Changing a caller that has not been answered disturbs no order. */
  lemma CallerChangeKeepsBacking(callers: map<Id, Caller>, t: Tables, caller: Id, next: Caller)
    requires Backed(callers, t)
    requires caller in callers ==> !callers[caller].stage.Answered?
    ensures Backed(callers[caller := next], t)
  {
    var after := callers[caller := next];
    forall o | o in t.orders
      ensures OrderBacked(after, t, o) && o != caller
    {
      assert OrderBacked(callers, t, o);
    }
    forall op | op in t.operations
      ensures OperationBacked(after, t, op)
    {
      assert OperationBacked(callers, t, op);
      assert OrderBacked(callers, t, t.operations[op].orderId);
    }
  }

  lemma CallerChangeKeepsAnswers(callers: map<Id, Caller>, orders: map<Id, Order>, caller: Id, next: Caller)
    requires Answers(callers, orders) && AnswerBacked(caller, callers[caller := next], orders)
    ensures Answers(callers[caller := next], orders)
  {
  }

  lemma ArriveKeepsInv(s: System, draft: Draft)
    requires Inv(s) && Enabled(s, Arrive(draft))
    ensures Inv(Next(s, Arrive(draft)))
  {
    assert LayerHolds(OrderingLayer, s) && LayerHolds(InventoryLayer, s) && LayerHolds(ExchangeLayer, s);
    CallerChangeKeepsBacking(s.callers, s.ord, draft.orderId, Caller(draft, Looking));
    CallerChangeKeepsAnswers(s.callers, s.ord.orders, draft.orderId, Caller(draft, Looking));
    ArriveKeepsDrafts(s.callers, draft);
    LayersMakeInv(Next(s, Arrive(draft)));
  }

  lemma ArriveKeepsDrafts(callers: map<Id, Caller>, draft: Draft)
    requires Drafts(callers) && ValidDraft(draft)
    requires draft.orderId !in callers && forall o :: o in callers ==> Disjoint(draft, callers[o].draft)
    ensures Drafts(callers[draft.orderId := Caller(draft, Looking)])
  {
  }

  lemma MovingKeepsInv(s: System, caller: Id, stage: Stage)
    requires Inv(s) && caller in s.callers && !s.callers[caller].stage.Answered?
    requires AnswerBacked(caller, s.callers[caller := s.callers[caller].(stage := stage)], s.ord.orders)
    ensures Inv(Moving(s, caller, stage))
  {
    assert LayerHolds(OrderingLayer, s) && LayerHolds(InventoryLayer, s) && LayerHolds(ExchangeLayer, s);
    var next := s.callers[caller].(stage := stage);
    CallerChangeKeepsBacking(s.callers, s.ord, caller, next);
    CallerChangeKeepsAnswers(s.callers, s.ord.orders, caller, next);
    StageKeepsDrafts(s.callers, caller, stage);
    LayersMakeInv(Moving(s, caller, stage));
  }

  lemma StageKeepsDrafts(callers: map<Id, Caller>, caller: Id, stage: Stage)
    requires Drafts(callers) && caller in callers
    ensures Drafts(callers[caller := callers[caller].(stage := stage)])
  {
  }

  /** An answer taken from a lookup is about an existing order of the caller's checkout. */
  lemma FoundIsBacked(callers: map<Id, Caller>, t: Tables, caller: Id)
    requires caller in callers
    ensures var stage := Answered(AnswerOf(Find(t, callers[caller].draft)));
      AnswerBacked(caller, callers[caller := callers[caller].(stage := stage)], t.orders)
  {
  }

  lemma LookupKeepsInv(s: System, caller: Id)
    requires Inv(s) && Enabled(s, Lookup(caller))
    ensures Inv(Next(s, Lookup(caller)))
  {
    if Find(s.ord, s.callers[caller].draft).NoCheckout? {
      MovingKeepsInv(s, caller, Missing);
    } else {
      AnsweringKeepsInv(s, caller);
    }
  }

  lemma AnsweringKeepsInv(s: System, caller: Id)
    requires Inv(s) && caller in s.callers && !s.callers[caller].stage.Answered?
    ensures Inv(Moving(s, caller, Answered(AnswerOf(Find(s.ord, s.callers[caller].draft)))))
  {
    FoundIsBacked(s.callers, s.ord, caller);
    MovingKeepsInv(s, caller, Answered(AnswerOf(Find(s.ord, s.callers[caller].draft))));
  }

  lemma LookupAgainKeepsInv(s: System, caller: Id)
    requires Inv(s) && Enabled(s, LookupAgain(caller))
    ensures Inv(Next(s, LookupAgain(caller)))
  {
    AnsweringKeepsInv(s, caller);
  }

  /** With fresh identifiers the insert of a new checkout cannot clash. */
  lemma FreshDraftDoesNotClash(callers: map<Id, Caller>, t: Tables, caller: Id)
    requires Drafts(callers) && Backed(callers, t) && caller in callers && caller !in t.orders
    ensures !Clashes(t, callers[caller].draft)
  {
    FreshLinesDoNotClash(callers, t, caller);
    FreshOperationDoesNotClash(callers, t, caller);
  }

  lemma FreshLinesDoNotClash(callers: map<Id, Caller>, t: Tables, caller: Id)
    requires Drafts(callers) && Backed(callers, t) && caller in callers && caller !in t.orders
    ensures !LinesTaken(t, callers[caller].draft)
  {
    forall o, line, mine | o in t.orders && line in t.orders[o].lines && mine in callers[caller].draft.lines
      ensures line.id != mine.id
    {
      assert OrderBacked(callers, t, o);
      assert Disjoint(callers[caller].draft, callers[o].draft);
    }
  }

  lemma FreshOperationDoesNotClash(callers: map<Id, Caller>, t: Tables, caller: Id)
    requires Drafts(callers) && Backed(callers, t) && caller in callers && caller !in t.orders
    ensures callers[caller].draft.operationId !in t.outbox && callers[caller].draft.operationId !in t.operations
    ensures forall op :: op in t.outbox ==> t.outbox[op].eventId != callers[caller].draft.eventId
  {
    assert t.outbox.Keys == t.operations.Keys;
    forall op | op in t.outbox
      ensures op != callers[caller].draft.operationId && t.outbox[op].eventId != callers[caller].draft.eventId
    {
      assert OperationBacked(callers, t, op);
      assert Disjoint(callers[caller].draft, callers[t.operations[op].orderId].draft);
    }
  }

  lemma UnansweredHasNoOrder(callers: map<Id, Caller>, t: Tables, caller: Id)
    requires Backed(callers, t) && caller in callers && !callers[caller].stage.Answered?
    ensures caller !in t.orders
  {
  }

  lemma InsertKeepsInv(s: System, caller: Id)
    requires Inv(s) && Enabled(s, InsertDraft(caller))
    ensures Inv(Next(s, InsertDraft(caller)))
  {
    assert LayerHolds(OrderingLayer, s);
    InsertIsPossible(s, caller);
    if CheckoutUsed(s.ord, s.callers[caller].draft.checkoutId) {
      MovingKeepsInv(s, caller, Conflicted);
    } else {
      InsertedKeepsInv(s, caller);
    }
  }

  lemma InsertIsPossible(s: System, caller: Id)
    requires Drafts(s.callers) && Backed(s.callers, s.ord) && Enabled(s, InsertDraft(caller))
    ensures caller !in s.ord.orders && !Clashes(s.ord, s.callers[caller].draft)
    ensures Next(s, InsertDraft(caller)) ==
      if CheckoutUsed(s.ord, s.callers[caller].draft.checkoutId) then Moving(s, caller, Conflicted)
      else AfterInsert(s, caller)
  {
    UnansweredHasNoOrder(s.callers, s.ord, caller);
    FreshDraftDoesNotClash(s.callers, s.ord, caller);
  }

  /** The system after a successful insert. */
  ghost function AfterInsert(s: System, caller: Id): System
    requires caller in s.callers
  {
    Moving(s.(ord := Insert(s.ord, s.callers[caller].draft).0), caller, Answered(Placed(caller, false)))
  }

  lemma InsertedKeepsInv(s: System, caller: Id)
    requires Inv(s) && AtStage(s, caller, Missing) && caller !in s.ord.orders
    requires !CheckoutUsed(s.ord, s.callers[caller].draft.checkoutId) && !Clashes(s.ord, s.callers[caller].draft)
    ensures Inv(AfterInsert(s, caller))
  {
    assert LayerHolds(OrderingLayer, s) && LayerHolds(InventoryLayer, s) && LayerHolds(ExchangeLayer, s);
    InsertKeepsOrdering(s, caller);
    InsertKeepsInventory(s, s.callers[caller].draft);
    InsertKeepsExchange(s, s.callers[caller].draft);
    LayersMakeInv(AfterInsert(s, caller));
  }

  lemma InsertKeepsOrdering(s: System, caller: Id)
    requires OrderingInv(s) && AtStage(s, caller, Missing) && caller !in s.ord.orders
    requires !CheckoutUsed(s.ord, s.callers[caller].draft.checkoutId) && !Clashes(s.ord, s.callers[caller].draft)
    ensures OrderingInv(AfterInsert(s, caller))
  {
    var draft := s.callers[caller].draft;
    var next := s.callers[caller].(stage := Answered(Placed(caller, false)));
    assert draft.orderId == caller;
    InsertKeepsBacking(s.callers, s.ord, caller, next);
    InsertKeepsAnswers(s.callers, s.ord, caller, next);
    StageKeepsDrafts(s.callers, caller, Answered(Placed(caller, false)));
    InsertKeepsLifecycle(s.callers, s.ord, draft);
  }

  lemma InsertKeepsExchange(s: System, draft: Draft)
    requires ExchangeInv(s) && draft.orderId !in s.ord.orders
    requires !CheckoutUsed(s.ord, draft.checkoutId) && !Clashes(s.ord, draft)
    ensures ExchangeInv(s.(ord := Insert(s.ord, draft).0))
  {
  }

  lemma InsertKeepsInventory(s: System, draft: Draft)
    requires InventoryInv(s) && draft.orderId !in s.ord.orders
    requires !CheckoutUsed(s.ord, draft.checkoutId) && !Clashes(s.ord, draft)
    ensures var outbox := Insert(s.ord, draft).0.outbox;
      && Receipts(s.inv.receipts, s.decidedOn, outbox)
      && Movements(s.inv.movements, s.inv.receipts, s.decidedOn, outbox)
  {
    var outbox := Insert(s.ord, draft).0.outbox;
    forall op | op in s.ord.outbox
      ensures op in outbox && SameRow(s.ord.outbox[op], outbox[op])
    {
    }
    ReceiptsAreForRows(s.inv.receipts, s.decidedOn, s.ord.outbox);
    SameRequestsKeepReceipts(s.inv.receipts, s.decidedOn, s.ord.outbox, outbox);
    SameRequestsKeepMovements(s.inv.movements, s.inv.receipts, s.decidedOn, s.ord.outbox, outbox);
  }

  lemma ReceiptsAreForRows(receipts: map<Id, Inventory.Receipt>, decidedOn: map<Id, Pos>, outbox: map<Id, OutboxRow>)
    requires Receipts(receipts, decidedOn, outbox)
    ensures forall op :: op in receipts ==> op in outbox
  {
  }

  /** What a successful insert adds. */
  ghost predicate Added(t: Tables, u: Tables, draft: Draft) {
    && u.orders == t.orders[draft.orderId := OrderRow(draft)]
    && u.operations == t.operations[draft.operationId := Operation(draft.orderId, Pending, None, [])]
    && u.outbox == t.outbox[draft.operationId := OutboxRowOf(draft)]
  }

  lemma InsertKeepsBacking(callers: map<Id, Caller>, t: Tables, caller: Id, next: Caller)
    requires Backed(callers, t) && caller in callers && !callers[caller].stage.Answered? && caller !in t.orders
    requires next == callers[caller].(stage := Answered(Placed(caller, false))) && next.draft.orderId == caller
    requires !CheckoutUsed(t, next.draft.checkoutId) && !Clashes(t, next.draft)
    ensures Backed(callers[caller := next], Insert(t, next.draft).0)
  {
    CallerChangeKeepsBacking(callers, t, caller, next);
    AddKeepsBacking(callers[caller := next], t, Insert(t, next.draft).0, next.draft);
  }

  lemma AddKeepsBacking(callers: map<Id, Caller>, t: Tables, u: Tables, draft: Draft)
    requires Backed(callers, t) && Added(t, u, draft)
    requires draft.orderId !in t.orders && draft.operationId !in t.operations
    requires draft.orderId in callers && callers[draft.orderId] == Caller(draft, Answered(Placed(draft.orderId, false)))
    ensures Backed(callers, u)
  {
    forall o | o in u.orders
      ensures OrderBacked(callers, u, o)
    {
      if o != draft.orderId {
        assert OrderBacked(callers, t, o);
      }
    }
    forall op | op in u.operations
      ensures OperationBacked(callers, u, op)
    {
      if op != draft.operationId {
        assert OperationBacked(callers, t, op);
      }
    }
  }

  lemma InsertKeepsAnswers(callers: map<Id, Caller>, t: Tables, caller: Id, next: Caller)
    requires Answers(callers, t.orders) && OneOrderPerCheckout(t.orders) && caller in callers && caller !in t.orders
    requires next == callers[caller].(stage := Answered(Placed(caller, false))) && next.draft.orderId == caller
    requires !CheckoutUsed(t, next.draft.checkoutId) && !Clashes(t, next.draft)
    ensures Answers(callers[caller := next], Insert(t, next.draft).0.orders)
    ensures OneOrderPerCheckout(Insert(t, next.draft).0.orders)
  {
  }

  lemma InsertKeepsOrder(t: Tables, draft: Draft, o: Id)
    requires OrderInStep(t, o) && draft.orderId !in t.orders
    requires !CheckoutUsed(t, draft.checkoutId) && !Clashes(t, draft)
    ensures OrderInStep(Insert(t, draft).0, o)
  {
    CountAppend(t.audits, Audit(OrderPlaced, draft.orderId), FulfillmentAdvanced, o);
    CountAppend(t.audits, Audit(OrderPlaced, draft.orderId), InventoryCommitted, o);
    CountAppend(t.audits, Audit(OrderPlaced, draft.orderId), OrderRejected, o);
  }

  lemma NewOperationIsInStep(t: Tables, draft: Draft)
    requires draft.orderId !in t.orders && !CheckoutUsed(t, draft.checkoutId) && !Clashes(t, draft)
    ensures InStep(Insert(t, draft).0, draft.operationId)
  {
  }

  lemma InsertKeepsOperation(t: Tables, draft: Draft, op: Id)
    requires InStep(t, op) && op != draft.operationId && draft.orderId !in t.orders
    requires !CheckoutUsed(t, draft.checkoutId) && !Clashes(t, draft)
    ensures InStep(Insert(t, draft).0, op)
  {
  }

  lemma InsertKeepsLifecycle(callers: map<Id, Caller>, t: Tables, draft: Draft)
    requires Lifecycle(t) && Backed(callers, t) && draft.orderId !in t.orders
    requires !CheckoutUsed(t, draft.checkoutId) && !Clashes(t, draft)
    ensures Lifecycle(Insert(t, draft).0)
  {
    var u := Insert(t, draft).0;
    forall op | op in u.operations
      ensures InStep(u, op)
    {
      if op == draft.operationId {
        NewOperationIsInStep(t, draft);
      } else {
        assert InStep(t, op);
        InsertKeepsOperation(t, draft, op);
      }
    }
    forall o
      ensures OrderInStep(u, o)
    {
      assert OrderInStep(t, o);
      InsertKeepsOrder(t, draft, o);
    }
  }

  // ----- Claiming and retrying -----

  /** Lifecycle when only lock columns of unpublished rows change. */
  ghost predicate Relocked(a: map<Id, OutboxRow>, b: map<Id, OutboxRow>) {
    a.Keys == b.Keys && forall op :: op in a ==>
      && a[op].publishedAt == b[op].publishedAt
      && (a[op] != b[op] ==> a[op].publishedAt.None? && (b[op].claimToken.Some? <==> b[op].lockedAt.Some?))
  }

  lemma RelockKeepsLifecycle(t: Tables, outbox: map<Id, OutboxRow>)
    requires Lifecycle(t) && Relocked(t.outbox, outbox)
    ensures Lifecycle(t.(outbox := outbox))
  {
    var u := t.(outbox := outbox);
    forall op | op in u.operations
      ensures InStep(u, op)
    {
      assert InStep(t, op);
    }
    forall o
      ensures OrderInStep(u, o)
    {
      assert OrderInStep(t, o);
    }
  }

  lemma ClaimKeepsInv(s: System, op: Id, token: Id, now: Instant, lease: nat)
    requires Inv(s) && Enabled(s, ClaimWork(op, token, now, lease))
    ensures Inv(Next(s, ClaimWork(op, token, now, lease)))
  {
    assert LayerHolds(OrderingLayer, s) && LayerHolds(ExchangeLayer, s);
    var t := Claim(s.ord, op, token, now);
    ClaimRelocks(s.ord, op, token, now);
    RelockKeepsLifecycle(s.ord, t.outbox);
    ClaimKeepsClaims(s.claims, s.ord, op, token, now);
    RelabelKeepsInv(s, t, s.claims + {WorkOf(s.ord.outbox[op], token)});
  }

  lemma ClaimRelocks(t: Tables, op: Id, token: Id, now: Instant)
    requires op in t.outbox && t.outbox[op].publishedAt.None?
    ensures Relabelled(t, Claim(t, op, token, now))
    ensures Relocked(t.outbox, Claim(t, op, token, now).outbox)
  {
  }

  lemma RetryRelocks(t: Tables, claim: ClaimedWork, next: Instant, errorCode: string)
    ensures var u := Retry(t, claim, next, errorCode).0;
      Relabelled(t, u) && Relocked(t.outbox, u.outbox) && u == t.(outbox := u.outbox)
  {
  }

  lemma NewClaimIsBacked(claims: set<ClaimedWork>, t: Tables, op: Id, token: Id, now: Instant)
    requires op in t.outbox && t.outbox[op].payload.operationId == op
    requires forall c :: c in claims ==> ClaimBacked(c, t.outbox)
    ensures forall c :: c in claims + {WorkOf(t.outbox[op], token)} ==> ClaimBacked(c, Claim(t, op, token, now).outbox)
  {
    var work, outbox := WorkOf(t.outbox[op], token), Claim(t, op, token, now).outbox;
    forall c | c in claims + {work}
      ensures ClaimBacked(c, outbox)
    {
      assert c != work ==> ClaimBacked(c, t.outbox);
    }
  }

  lemma NewClaimIsCounted(claims: set<ClaimedWork>, t: Tables, op: Id, token: Id, now: Instant)
    requires op in t.outbox && t.outbox[op].payload.operationId == op
    requires forall c :: c in claims ==> c.claimToken != token
    requires forall p :: p in t.outbox ==> RowCounted(claims, p, t.outbox[p])
    ensures var outbox := Claim(t, op, token, now).outbox;
      forall p :: p in outbox ==> RowCounted(claims + {WorkOf(t.outbox[op], token)}, p, outbox[p])
  {
    var work, outbox := WorkOf(t.outbox[op], token), Claim(t, op, token, now).outbox;
    forall p | p in outbox
      ensures RowCounted(claims + {work}, p, outbox[p])
    {
      assert RowCounted(claims, p, t.outbox[p]);
      OneMoreClaim(claims, work, p);
    }
  }

  lemma ClaimKeepsClaims(claims: set<ClaimedWork>, t: Tables, op: Id, token: Id, now: Instant)
    requires Claiming(claims, t.outbox) && op in t.outbox
    requires forall c :: c in claims ==> c.claimToken != token
    ensures Claiming(claims + {WorkOf(t.outbox[op], token)}, Claim(t, op, token, now).outbox)
  {
    NewClaimIsBacked(claims, t, op, token, now);
    NewClaimIsCounted(claims, t, op, token, now);
  }

  lemma OneMoreClaim(claims: set<ClaimedWork>, work: ClaimedWork, op: Id)
    requires work !in claims
    ensures |ClaimsOn(claims + {work}, op)| == |ClaimsOn(claims, op)| + (if work.commit.operationId == op then 1 else 0)
  {
    if work.commit.operationId == op {
      assert ClaimsOn(claims + {work}, op) == ClaimsOn(claims, op) + {work};
    } else {
      assert ClaimsOn(claims + {work}, op) == ClaimsOn(claims, op);
    }
  }

  lemma RetryKeepsInv(s: System, claim: ClaimedWork, next: Instant, errorCode: string)
    requires Inv(s) && Enabled(s, RetryClaim(claim, next, errorCode))
    ensures Inv(Next(s, RetryClaim(claim, next, errorCode)))
  {
    assert LayerHolds(OrderingLayer, s) && LayerHolds(ExchangeLayer, s);
    var t := Retry(s.ord, claim, next, errorCode).0;
    RetryRelocks(s.ord, claim, next, errorCode);
    RelockKeepsLifecycle(s.ord, t.outbox);
    RetryKeepsClaims(s.claims, s.ord, claim, next, errorCode);
    RelabelKeepsInv(s, t, s.claims);
  }

  lemma RetryKeepsClaims(claims: set<ClaimedWork>, t: Tables, claim: ClaimedWork, next: Instant, errorCode: string)
    requires Claiming(claims, t.outbox)
    ensures Claiming(claims, Retry(t, claim, next, errorCode).0.outbox)
  {
  }

  // ----- Fulfillment and outside changes -----

  lemma AdvanceKeepsInv(s: System, o: Id, target: FulfillmentStatus, now: Instant)
    requires Inv(s) && Enabled(s, AdvanceOrder(o, target, now))
    ensures Inv(Next(s, AdvanceOrder(o, target, now)))
  {
    assert LayerHolds(OrderingLayer, s) && LayerHolds(ExchangeLayer, s);
    var t := Advance(s.ord, o, target, now).0;
    AdvanceRelabels(s.ord, o, target, now);
    AdvanceKeepsLifecycle(s.ord, o, target, now);
    RelabelKeepsInv(s, t, s.claims);
  }

  lemma AdvanceRelabels(t: Tables, o: Id, target: FulfillmentStatus, now: Instant)
    ensures var u := Advance(t, o, target, now).0;
      Relabelled(t, u) && u == t.(fulfillments := u.fulfillments, audits := u.audits)
  {
  }

  lemma AdvanceKeepsLifecycle(t: Tables, o: Id, target: FulfillmentStatus, now: Instant)
    requires Lifecycle(t)
    ensures Lifecycle(Advance(t, o, target, now).0)
  {
    var u := Advance(t, o, target, now).0;
    if u != t {
      forall op | op in u.operations
        ensures InStep(u, op)
      {
        assert InStep(t, op);
      }
      forall p
        ensures OrderInStep(u, p)
      {
        assert OrderInStep(t, p);
        CountAppend(t.audits, Audit(FulfillmentAdvanced, o), FulfillmentAdvanced, p);
        CountAppend(t.audits, Audit(FulfillmentAdvanced, o), InventoryCommitted, p);
        CountAppend(t.audits, Audit(FulfillmentAdvanced, o), OrderRejected, p);
      }
    }
  }

  lemma ChangePosKeepsInv(s: System, pos: Pos)
    requires Inv(s)
    ensures Inv(Next(s, ChangePos(pos)))
  {
    assert LayerHolds(OrderingLayer, s) && LayerHolds(InventoryLayer, s) && LayerHolds(ExchangeLayer, s);
    ChangePosKeepsStock(s, pos);
    LayersMakeInv(Next(s, ChangePos(pos)));
  }

  lemma ChangePosKeepsStock(s: System, pos: Pos)
    requires StockAccounted(s.inv, s.start, s.outside)
    ensures StockAccounted(Next(s, ChangePos(pos)).inv, s.start, Next(s, ChangePos(pos)).outside)
  {
    var s' := Next(s, ChangePos(pos));
    forall id
      ensures Accounted(s'.inv, s'.start, s'.outside, id)
    {
      assert Accounted(s.inv, s.start, s.outside, id);
    }
  }
}
