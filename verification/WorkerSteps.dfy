/** What handling one claimed piece of work does to the system, under every fault the worker can meet. */
module WorkerSteps {
  import opened Basics
  import opened CommitDomain
  import opened CommitDecision
  import opened OrderingDomain
  import opened OrderingStore
  import Inventory = InventoryStore
  import opened CommitTheorems
  import opened Canonical
  import opened Protocol
  import opened ProtocolInvariant
  import opened ProtocolExchange
  import opened ProtocolTheorems
  import opened Traces
  import opened Backoff

  /** `NotSent` and `ReplyLost` are the two ends of a failed exchange with the adapter; `StoreFails` is an error
      of the ordering database, or a crash, after the exchange. */
  datatype Fault = NoFault | NotSent | ReplyLost | StoreFails

  /** What surrounds one exchange: its fault, the adapter's clock and the identifier the adapter draws. */
  datatype Exchange = Exchange(fault: Fault, eventId: Id, at: Instant)

  datatype WorkerConfig = WorkerConfig(batchSize: nat, leaseTimeout: nat, retryBase: Int64, retryMax: Int64)

  function RetryAt(config: WorkerConfig, now: Instant, attempt: nat): Instant
    requires 0 < config.retryBase && 0 < config.retryMax
  {
    Pow2Grows(0, Doublings(attempt));
    ProductGrows(config.retryBase as nat, 1, Pow2(Doublings(attempt)));
    now + Delay(config.retryBase as nat, config.retryMax as int, attempt)
  }

  function ErrorCode(fault: Fault): string {
    match fault
    case NotSent => "INVENTORY_UNREACHABLE"
    case ReplyLost => "INVENTORY_TIMEOUT"
    case _ => "INVENTORY_SERVER_ERROR"
  }

  ghost function Sent(s: System, claim: ClaimedWork, x: Exchange): System {
    if x.fault.NotSent? then s else Called(s, claim, x.eventId, x.at)
  }

  /** The result the worker gets to see. */
  ghost function Received(s: System, claim: ClaimedWork, x: Exchange): Option<CommitResult> {
    if x.fault.NotSent? || x.fault.ReplyLost? then None
    else
      var answer := Serve(s.inv, claim.commit, x.eventId, x.at).1;
      if answer.Some? && AcceptableReply(answer.value, claim.commit) then answer else None
  }

  ghost function Settled(
    s: System, claim: ClaimedWork, x: Exchange, received: Option<CommitResult>, config: WorkerConfig, now: Instant): System
    requires 0 < config.retryBase && 0 < config.retryMax
  {
    if x.fault.StoreFails? then s
    else if received.Some? then s.(ord := Apply(s.ord, claim, received.value, now).0)
    else s.(ord := Retry(s.ord, claim, RetryAt(config, now, claim.attemptCount), ErrorCode(x.fault)).0)
  }

  /** One turn of the loop of `ProcessOnce`. */
  ghost function Handled(s: System, claim: ClaimedWork, x: Exchange, config: WorkerConfig, now: Instant): System
    requires 0 < config.retryBase && 0 < config.retryMax
  {
    Settled(Sent(s, claim, x), claim, x, Received(s, claim, x), config, now)
  }

  /** The protocol steps of one turn. */
  ghost function Turn(s: System, claim: ClaimedWork, x: Exchange, config: WorkerConfig, now: Instant): seq<Action>
    requires 0 < config.retryBase && 0 < config.retryMax
  {
    var received := Received(s, claim, x);
    (if x.fault.NotSent? then [] else [CallAdapter(claim, x.eventId, x.at)]) +
    (if x.fault.StoreFails? then []
     else if received.Some? then [ApplyReply(Reply(claim, received.value), now)]
     else [RetryClaim(claim, RetryAt(config, now, claim.attemptCount), ErrorCode(x.fault))])
  }

  lemma ReceivedIsReply(s: System, claim: ClaimedWork, x: Exchange)
    requires Received(s, claim, x).Some?
    ensures Reply(claim, Received(s, claim, x).value) in Sent(s, claim, x).replies
  {
  }

  lemma SentIsStep(s: System, claim: ClaimedWork, x: Exchange)
    requires claim in s.claims && FreshEvent(s, x.eventId) && x.eventId != NIL && x.at != 0
    ensures Reaches(s, if x.fault.NotSent? then [] else [CallAdapter(claim, x.eventId, x.at)], Sent(s, claim, x))
    ensures Sent(s, claim, x).claims == s.claims
  {
    ReachesItself(s);
    if !x.fault.NotSent? {
      OneMoreStep(s, [], s, CallAdapter(claim, x.eventId, x.at));
      assert [] + [CallAdapter(claim, x.eventId, x.at)] == [CallAdapter(claim, x.eventId, x.at)];
    }
  }

  lemma SettledIsStep(
    s: System, claim: ClaimedWork, x: Exchange, received: Option<CommitResult>, config: WorkerConfig, now: Instant)
    requires 0 < config.retryBase && 0 < config.retryMax && claim in s.claims
    requires received.Some? ==> Reply(claim, received.value) in s.replies
    ensures Reaches(
      s,
      if x.fault.StoreFails? then []
      else if received.Some? then [ApplyReply(Reply(claim, received.value), now)]
      else [RetryClaim(claim, RetryAt(config, now, claim.attemptCount), ErrorCode(x.fault))],
      Settled(s, claim, x, received, config, now))
  {
    ReachesItself(s);
    if !x.fault.StoreFails? {
      var a := if received.Some? then ApplyReply(Reply(claim, received.value), now)
               else RetryClaim(claim, RetryAt(config, now, claim.attemptCount), ErrorCode(x.fault));
      OneMoreStep(s, [], s, a);
      assert [] + [a] == [a];
    }
  }

  /** A turn, whatever goes wrong in it, is a stretch of the protocol. */
  lemma TurnIsSteps(s: System, claim: ClaimedWork, x: Exchange, config: WorkerConfig, now: Instant)
    requires 0 < config.retryBase && 0 < config.retryMax
    requires claim in s.claims && FreshEvent(s, x.eventId) && x.eventId != NIL && x.at != 0
    ensures Reaches(s, Turn(s, claim, x, config, now), Handled(s, claim, x, config, now))
  {
    var sent, received := Sent(s, claim, x), Received(s, claim, x);
    SentIsStep(s, claim, x);
    if received.Some? {
      ReceivedIsReply(s, claim, x);
    }
    SettledIsStep(sent, claim, x, received, config, now);
    StepsCompose(
      s, if x.fault.NotSent? then [] else [CallAdapter(claim, x.eventId, x.at)], sent,
      if x.fault.StoreFails? then []
      else if received.Some? then [ApplyReply(Reply(claim, received.value), now)]
      else [RetryClaim(claim, RetryAt(config, now, claim.attemptCount), ErrorCode(x.fault))],
      Handled(s, claim, x, config, now));
  }

  // ----- What a turn leaves alone -----

  /** The same tables except for stock. */
  ghost predicate SameShape(p: Pos, q: Pos) {
    && q.recipes == p.recipes && q.items.Keys == p.items.Keys
    && forall id :: id in p.items ==> q.items[id] == p.items[id].(stock := q.items[id].stock)
  }

  lemma ShapeDecidesOverflow(p: Pos, q: Pos, lines: seq<Line>)
    requires SameShape(p, q)
    ensures Overflows(p, lines) <==> Overflows(q, lines)
  {
  }

  lemma CommitKeepsShape(db: Inventory.Database, command: CommitCommand, fingerprint: string, eventId: Id, now: Instant)
    requires ValidCommand(command)
    ensures SameShape(db.pos, Inventory.Commit(db, command, fingerprint, eventId, now).0.pos)
  {
  }

  lemma CallKeepsShape(s: System, claim: ClaimedWork, eventId: Id, now: Instant)
    ensures SameShape(s.inv.pos, Called(s, claim, eventId, now).inv.pos)
  {
    if ValidCommand(claim.commit) {
      CommitKeepsShape(s.inv, claim.commit, CanonicalText(claim.commit), eventId, now);
    }
  }

  /** Only the row of `op` and what hangs on it changed, and the only new event identifier is `eventId`. */
  ghost predicate TouchedOnly(s: System, t: System, op: Id, eventId: Id) {
    && t.claims == s.claims
    && t.ord.outbox.Keys == s.ord.outbox.Keys
    && (forall p :: p in s.ord.outbox && p != op ==> t.ord.outbox[p] == s.ord.outbox[p])
    && SameShape(s.inv.pos, t.inv.pos)
    && (forall other :: other != eventId && FreshEvent(s, other) ==> FreshEvent(t, other))
  }

  lemma CallTouches(s: System, claim: ClaimedWork, eventId: Id, now: Instant)
    ensures TouchedOnly(s, Called(s, claim, eventId, now), claim.commit.operationId, eventId)
    ensures Called(s, claim, eventId, now).ord == s.ord
  {
    CallKeepsShape(s, claim, eventId, now);
    CallAddsOneEvent(s, claim, eventId, now);
  }

  lemma CommitAddsOneEvent(db: Inventory.Database, command: CommitCommand, fingerprint: string, eventId: Id, now: Instant)
    requires ValidCommand(command)
    ensures var after := Inventory.Commit(db, command, fingerprint, eventId, now).0;
      forall p :: p in after.receipts ==>
        after.receipts[p].result.eventId == eventId || (p in db.receipts && after.receipts[p] == db.receipts[p])
  {
  }

  lemma CallAddsOneEvent(s: System, claim: ClaimedWork, eventId: Id, now: Instant)
    ensures var t := Called(s, claim, eventId, now);
      forall p :: p in t.inv.receipts ==>
        t.inv.receipts[p].result.eventId == eventId
        || (p in s.inv.receipts && t.inv.receipts[p] == s.inv.receipts[p])
  {
    if ValidCommand(claim.commit) {
      CommitAddsOneEvent(s.inv, claim.commit, CanonicalText(claim.commit), eventId, now);
    }
  }

  lemma ApplyTouches(t: Tables, claim: ClaimedWork, result: CommitResult, now: Instant)
    ensures var u := Apply(t, claim, result, now).0;
      u.outbox.Keys == t.outbox.Keys
      && forall p :: p in t.outbox && p != claim.commit.operationId ==> u.outbox[p] == t.outbox[p]
  {
  }

  lemma RetryTouches(t: Tables, claim: ClaimedWork, next: Instant, errorCode: string)
    requires EventsUnique(t) && claim.commit.operationId in t.outbox
    requires t.outbox[claim.commit.operationId].eventId == claim.commit.eventId
    ensures var u := Retry(t, claim, next, errorCode).0;
      u.outbox.Keys == t.outbox.Keys
      && forall p :: p in t.outbox && p != claim.commit.operationId ==> u.outbox[p] == t.outbox[p]
  {
  }

  /** A turn touches no other row, and leaves its own row unlocked unless the ordering database failed. */
  lemma TurnTouches(s: System, claim: ClaimedWork, x: Exchange, config: WorkerConfig, now: Instant)
    requires 0 < config.retryBase && 0 < config.retryMax && Inv(s) && claim in s.claims
    ensures TouchedOnly(s, Handled(s, claim, x, config, now), claim.commit.operationId, x.eventId)
  {
    SendTouches(s, claim, x);
    ClaimMatchesItsRow(s, claim);
    var sent := Sent(s, claim, x);
    SettleTouches(sent, claim, x, Received(s, claim, x), config, now);
    OnlyRowsChange(s, sent, Handled(s, claim, x, config, now), claim.commit.operationId, x.eventId);
  }

  lemma SendTouches(s: System, claim: ClaimedWork, x: Exchange)
    ensures TouchedOnly(s, Sent(s, claim, x), claim.commit.operationId, x.eventId) && Sent(s, claim, x).ord == s.ord
  {
    CallTouches(s, claim, x.eventId, x.at);
  }

  lemma OnlyRowsChange(s: System, sent: System, t: System, op: Id, eventId: Id)
    requires TouchedOnly(s, sent, op, eventId) && sent.ord == s.ord && t == sent.(ord := t.ord)
    requires t.ord.outbox.Keys == s.ord.outbox.Keys
    requires forall p :: p in s.ord.outbox && p != op ==> t.ord.outbox[p] == s.ord.outbox[p]
    ensures TouchedOnly(s, t, op, eventId)
  {
    forall other | other != eventId && FreshEvent(s, other)
      ensures FreshEvent(t, other)
    {
      assert FreshEvent(sent, other);
    }
  }

  lemma ClaimMatchesItsRow(s: System, claim: ClaimedWork)
    requires Inv(s) && claim in s.claims
    ensures EventsUnique(s.ord) && claim.commit.operationId in s.ord.outbox
    ensures s.ord.outbox[claim.commit.operationId].eventId == claim.commit.eventId
  {
    assert LayerHolds(OrderingLayer, s) && LayerHolds(InventoryLayer, s);
    ClaimIsRequest(s, claim);
    EventsAreUnique(s.callers, s.ord);
    InvMatchesEvents(s);
  }

  lemma SettleTouches(
    s: System, claim: ClaimedWork, x: Exchange, received: Option<CommitResult>, config: WorkerConfig, now: Instant)
    requires 0 < config.retryBase && 0 < config.retryMax
    requires EventsUnique(s.ord) && claim.commit.operationId in s.ord.outbox
    requires s.ord.outbox[claim.commit.operationId].eventId == claim.commit.eventId
    ensures var t := Settled(s, claim, x, received, config, now);
      && t == s.(ord := t.ord) && t.ord.outbox.Keys == s.ord.outbox.Keys
      && forall p :: p in s.ord.outbox && p != claim.commit.operationId ==> t.ord.outbox[p] == s.ord.outbox[p]
  {
    if received.Some? {
      ApplyTouches(s.ord, claim, received.value, now);
    } else {
      RetryTouches(s.ord, claim, RetryAt(config, now, claim.attemptCount), ErrorCode(x.fault));
    }
  }

  // ----- What a turn achieves -----

  /** Without a fault, a current claim of an order that need not be refused ends with its row published. */
  lemma TurnPublishes(s: System, claim: ClaimedWork, x: Exchange, config: WorkerConfig, now: Instant)
    requires 0 < config.retryBase && 0 < config.retryMax && Inv(s) && claim in s.claims && x.fault.NoFault?
    requires FreshEvent(s, x.eventId) && x.eventId != NIL && x.at != 0
    requires Current(s, claim) && !KindOf(s, claim).Refused?
    ensures claim.commit.operationId in Handled(s, claim, x, config, now).ord.outbox
    ensures Handled(s, claim, x, config, now).ord.outbox[claim.commit.operationId].publishedAt == Some(now)
  {
    ServedIsReceived(s, claim, x);
    TurnWithReplyPublishes(s, claim, x, config, now);
  }

  lemma CurrentIsPending(s: System, op: Id)
    requires Lifecycle(s.ord) && op in s.ord.operations && op in s.ord.outbox && s.ord.outbox[op].claimToken.Some?
    ensures s.ord.operations[op].status.Pending?
  {
  }

  lemma ServedIsReceived(s: System, claim: ClaimedWork, x: Exchange)
    requires Inv(s) && claim in s.claims && x.fault.NoFault?
    requires FreshEvent(s, x.eventId) && x.eventId != NIL && x.at != 0 && !KindOf(s, claim).Refused?
    ensures Received(s, claim, x).Some?
    ensures Reply(claim, Received(s, claim, x).value) in Called(s, claim, x.eventId, x.at).replies
  {
    if KindOf(s, claim).Repeated? {
      RepeatedIsReceived(s, claim, x);
    } else {
      FirstIsReceived(s, claim, x);
    }
    ReceivedIsReply(s, claim, x);
  }

  lemma RepeatedIsReceived(s: System, claim: ClaimedWork, x: Exchange)
    requires Inv(s) && claim in s.claims && x.fault.NoFault? && KindOf(s, claim).Repeated?
    ensures Received(s, claim, x).Some?
  {
    ClaimIsAnswerable(s, claim);
    AnswerableIsReceived(s, claim, x);
  }

  lemma AnswerableIsReceived(s: System, claim: ClaimedWork, x: Exchange)
    ensures Answerable(s.inv.receipts, claim.commit) && x.fault.NoFault? ==> Received(s, claim, x).Some?
  {
  }

  lemma FirstIsReceived(s: System, claim: ClaimedWork, x: Exchange)
    requires Inv(s) && claim in s.claims && x.fault.NoFault? && KindOf(s, claim).First?
    requires FreshEvent(s, x.eventId) && x.eventId != NIL && x.at != 0
    ensures Received(s, claim, x).Some?
  {
    FirstCall(s, claim, x.eventId, x.at);
  }

  /** The row says what went wrong: the adapter was not reached, did not answer in time, or could not serve. */
  predicate TellsFault(row: OutboxRow, fault: Fault) {
    && (row.errorCode == "INVENTORY_UNREACHABLE" <==> fault == NotSent)
    && (row.errorCode == "INVENTORY_TIMEOUT" <==> fault == ReplyLost)
    && (row.errorCode == "INVENTORY_SERVER_ERROR" <==> fault == NoFault || fault == StoreFails)
  }

  lemma ErrorCodeTells(row: OutboxRow, fault: Fault)
    requires row.errorCode == ErrorCode(fault)
    ensures TellsFault(row, fault)
  {
    var unreachable, timeout, server := "INVENTORY_UNREACHABLE", "INVENTORY_TIMEOUT", "INVENTORY_SERVER_ERROR";
    assert |unreachable| == 21 && |timeout| == 17 && |server| == 22;
  }

  /** Unless the ordering database failed, a turn never leaves its row locked: it is published, or due again
      after the retry delay of its attempt. */
  lemma TurnReleases(s: System, claim: ClaimedWork, x: Exchange, config: WorkerConfig, now: Instant)
    requires 0 < config.retryBase && 0 < config.retryMax && Inv(s) && claim in s.claims && !x.fault.StoreFails?
    requires FreshEvent(s, x.eventId) && x.eventId != NIL && x.at != 0 && Current(s, claim)
    ensures claim.commit.operationId in Handled(s, claim, x, config, now).ord.outbox
    ensures var row := Handled(s, claim, x, config, now).ord.outbox[claim.commit.operationId];
      row.publishedAt == Some(now)
      || (row.publishedAt.None? && row.lockedAt.None?
          && row.nextAttemptAt == RetryAt(config, now, claim.attemptCount)
          && row.nextAttemptAt == now + Delay(config.retryBase as nat, config.retryMax as int, claim.attemptCount)
          && TellsFault(row, x.fault))
  {
    if Received(s, claim, x).Some? {
      TurnWithReplyPublishes(s, claim, x, config, now);
    } else {
      TurnWithoutReplyReleases(s, claim, x, config, now);
      ErrorCodeTells(Handled(s, claim, x, config, now).ord.outbox[claim.commit.operationId], x.fault);
    }
  }

  lemma TurnWithReplyPublishes(s: System, claim: ClaimedWork, x: Exchange, config: WorkerConfig, now: Instant)
    requires 0 < config.retryBase && 0 < config.retryMax && Inv(s) && claim in s.claims && !x.fault.StoreFails?
    requires FreshEvent(s, x.eventId) && x.eventId != NIL && x.at != 0 && Current(s, claim)
    requires Received(s, claim, x).Some?
    ensures claim.commit.operationId in Handled(s, claim, x, config, now).ord.outbox
    ensures Handled(s, claim, x, config, now).ord.outbox[claim.commit.operationId].publishedAt == Some(now)
  {
    var sent := Called(s, claim, x.eventId, x.at);
    ReceivedIsReply(s, claim, x);
    StepKeepsInv(s, CallAdapter(claim, x.eventId, x.at));
    CurrentReplyPublishes(sent, Reply(claim, Received(s, claim, x).value), now);
  }

  lemma CurrentReplyPublishes(s: System, reply: Reply, now: Instant)
    requires Inv(s) && reply in s.replies && Current(s, reply.claim)
    ensures var op, outbox := reply.claim.commit.operationId, Apply(s.ord, reply.claim, reply.result, now).0.outbox;
      op in outbox && outbox[op].publishedAt == Some(now)
  {
    assert LayerHolds(OrderingLayer, s);
    ApplyOutcomeIs(s, reply, now);
    CurrentIsPending(s, reply.claim.commit.operationId);
  }

  lemma TurnWithoutReplyReleases(s: System, claim: ClaimedWork, x: Exchange, config: WorkerConfig, now: Instant)
    requires 0 < config.retryBase && 0 < config.retryMax && Inv(s) && claim in s.claims && !x.fault.StoreFails?
    requires Current(s, claim) && Received(s, claim, x).None?
    ensures claim.commit.operationId in Handled(s, claim, x, config, now).ord.outbox
    ensures var row := Handled(s, claim, x, config, now).ord.outbox[claim.commit.operationId];
      && row.publishedAt.None? && row.lockedAt.None? && row.nextAttemptAt == RetryAt(config, now, claim.attemptCount)
      && row.errorCode == ErrorCode(x.fault)
  {
    SendTouches(s, claim, x);
    ClaimMatchesItsRow(s, claim);
    CurrentIsUnpublished(s, claim.commit.operationId);
    RetryReleases(s.ord, claim, RetryAt(config, now, claim.attemptCount), ErrorCode(x.fault));
  }

  lemma RetryReleases(t: Tables, claim: ClaimedWork, next: Instant, errorCode: string)
    requires claim.commit.operationId in t.outbox && HeldBy(t.outbox[claim.commit.operationId], claim)
    ensures claim.commit.operationId in Retry(t, claim, next, errorCode).0.outbox
    ensures var row := Retry(t, claim, next, errorCode).0.outbox[claim.commit.operationId];
      row.publishedAt.None? && row.lockedAt.None? && row.nextAttemptAt == next && row.errorCode == errorCode
  {
  }

  lemma CurrentIsUnpublished(s: System, op: Id)
    requires Inv(s) && op in s.ord.outbox && s.ord.outbox[op].claimToken.Some?
    ensures s.ord.outbox[op].publishedAt.None?
  {
    assert LayerHolds(OrderingLayer, s);
    assert op in s.ord.operations && InStep(s.ord, op);
  }
}
