/** The outbox worker: claims a batch, asks the adapter for each piece of work, and applies or reschedules. */
module Worker {
  import opened Basics
  import opened CommitDomain
  import opened CommitDecision
  import opened OrderingDomain
  import Ordering = OrderingStore
  import Inventory = InventoryStore
  import opened Canonical
  import opened Protocol
  import opened ProtocolInvariant
  import opened ProtocolExchange
  import opened ProtocolTheorems
  import opened Traces
  import opened Backoff
  import opened WorkerSteps

  // ----- One batch of claims as protocol steps -----

  ghost predicate Claimables(s: System, ids: seq<Id>, now: Instant, lease: nat) {
    NoRepeats(ids) && forall op :: op in ids ==> op in Ordering.Candidates(s.ord, now, lease)
  }

  ghost predicate FreshTokens(s: System, tokens: seq<Id>) {
    NoRepeats(tokens) && forall i :: 0 <= i < |tokens| ==> FreshToken(s, tokens[i])
  }

  function ClaimSteps(ids: seq<Id>, tokens: seq<Id>, now: Instant, lease: nat): seq<Action>
    requires |ids| <= |tokens|
  {
    if ids == [] then []
    else
      var n := |ids| - 1;
      ClaimSteps(ids[..n], tokens, now, lease) + [ClaimWork(ids[n], tokens[n], now, lease)]
  }

  ghost function WorkSet(t: Ordering.Tables, ids: seq<Id>, tokens: seq<Id>): set<Ordering.ClaimedWork>
    requires |ids| <= |tokens| && forall op :: op in ids ==> op in t.outbox
  {
    set i | 0 <= i < |ids| :: Ordering.WorkOf(t.outbox[ids[i]], tokens[i])
  }

  ghost function Claimed(s: System, ids: seq<Id>, tokens: seq<Id>, now: Instant): System
    requires |ids| <= |tokens| && forall op :: op in ids ==> op in s.ord.outbox
  {
    s.(ord := Ordering.ClaimAll(s.ord, ids, tokens, now), claims := s.claims + WorkSet(s.ord, ids, tokens))
  }

  lemma {:induction false} ClaimsAreSteps(s: System, ids: seq<Id>, tokens: seq<Id>, now: Instant, lease: nat)
    requires |ids| <= |tokens| && Claimables(s, ids, now, lease) && FreshTokens(s, tokens)
    ensures Reaches(s, ClaimSteps(ids, tokens, now, lease), Claimed(s, ids, tokens, now))
  {
    if ids == [] {
      ReachesItself(s);
      assert WorkSet(s.ord, ids, tokens) == {};
    } else {
      var n := |ids| - 1;
      assert ids == ids[..n] + [ids[n]];
      ClaimsAreSteps(s, ids[..n], tokens, now, lease);
      LastClaimIsStep(s, ids[..n], ids[n], tokens, now, lease);
      OneMoreStep(
        s, ClaimSteps(ids[..n], tokens, now, lease), Claimed(s, ids[..n], tokens, now),
        ClaimWork(ids[n], tokens[n], now, lease));
    }
  }

  lemma LastClaimIsStep(s: System, init: seq<Id>, last: Id, tokens: seq<Id>, now: Instant, lease: nat)
    requires |init| < |tokens| && Claimables(s, init, now, lease) && FreshTokens(s, tokens)
    requires last !in init && last in Ordering.Candidates(s.ord, now, lease)
    ensures var a := ClaimWork(last, tokens[|init|], now, lease);
      && Enabled(Claimed(s, init, tokens, now), a)
      && Next(Claimed(s, init, tokens, now), a) == Claimed(s, init + [last], tokens, now)
  {
    Ordering.ClaimAllTouches(s.ord, init, tokens, now);
    LastTokenIsFresh(s, init, tokens, now);
    ClaimedGrows(s, init, last, tokens, now);
  }

  lemma ClaimedGrows(s: System, init: seq<Id>, last: Id, tokens: seq<Id>, now: Instant)
    requires |init| < |tokens| && last in s.ord.outbox && last !in init && forall op :: op in init ==> op in s.ord.outbox
    requires NoRepeats(init)
    ensures var before := Claimed(s, init, tokens, now);
      && last in before.ord.outbox && before.ord.outbox[last] == s.ord.outbox[last]
      && Claimed(s, init + [last], tokens, now) ==
           before.(ord := Ordering.Claim(before.ord, last, tokens[|init|], now),
                   claims := before.claims + {Ordering.WorkOf(before.ord.outbox[last], tokens[|init|])})
  {
    assert (init + [last])[..|init|] == init;
    Ordering.ClaimAllTouches(s.ord, init, tokens, now);
    WorkSetGrows(s.ord, init, last, tokens);
  }

  lemma WorkSetGrows(t: Ordering.Tables, init: seq<Id>, last: Id, tokens: seq<Id>)
    requires |init| < |tokens| && last in t.outbox && forall op :: op in init ==> op in t.outbox
    ensures WorkSet(t, init + [last], tokens) ==
      WorkSet(t, init, tokens) + {Ordering.WorkOf(t.outbox[last], tokens[|init|])}
  {
  }

  lemma LastTokenIsFresh(s: System, init: seq<Id>, tokens: seq<Id>, now: Instant)
    requires |init| < |tokens| && FreshTokens(s, tokens) && forall op :: op in init ==> op in s.ord.outbox
    ensures FreshToken(Claimed(s, init, tokens, now), tokens[|init|])
  {
  }

  // ----- When a row is due -----

  function Max(a: nat, b: nat): nat {
    if a < b then b else a
  }

  /** The moment from which an unpublished row can be claimed. */
  function DueAt(row: Ordering.OutboxRow, lease: nat): Instant {
    Max(row.nextAttemptAt, if row.lockedAt.Some? then row.lockedAt.value + lease else 0)
  }

  /** No unpublished row is ever out of reach: it can be claimed exactly from `DueAt` on. */
  lemma UnpublishedRowsFallDue(row: Ordering.OutboxRow, now: Instant, lease: nat)
    requires row.publishedAt.None?
    ensures Ordering.Claimable(row, now, lease) <==> DueAt(row, lease) <= now
  {
  }

  ghost predicate DueBy(row: Ordering.OutboxRow, lease: nat, limit: Instant) {
    row.publishedAt.Some? || DueAt(row, lease) <= limit
  }

  // ----- The loop over one batch -----

  ghost predicate ValidConfig(config: WorkerConfig) {
    0 < config.retryBase && 0 < config.retryMax
  }

  ghost predicate FreshExchanges(s: System, xs: seq<Exchange>) {
    && (forall i, j :: 0 <= i < j < |xs| ==> xs[i].eventId != xs[j].eventId)
    && (forall i :: 0 <= i < |xs| ==> FreshEvent(s, xs[i].eventId) && xs[i].eventId != NIL && xs[i].at != 0)
  }

  /** From `start`, the turns have touched the rows `done` only, and what comes next is still fresh. */
  ghost predicate Underway(start: System, s: System, done: seq<Id>, rest: seq<Exchange>) {
    && s.claims == start.claims
    && s.ord.outbox.Keys == start.ord.outbox.Keys
    && (forall op :: op in start.ord.outbox && op !in done ==> s.ord.outbox[op] == start.ord.outbox[op])
    && SameShape(start.inv.pos, s.inv.pos)
    && FreshExchanges(s, rest)
  }

  lemma TurnGoesOn(start: System, s: System, t: System, done: seq<Id>, op: Id, rest: seq<Exchange>)
    requires rest != [] && Underway(start, s, done, rest) && TouchedOnly(s, t, op, rest[0].eventId)
    ensures Underway(start, t, done + [op], rest[1..])
  {
  }

  /** What one batch leaves behind for the rows it claimed. */
  ghost predicate RowSettled(start: System, s: System, op: Id, lines: seq<Line>, x: Exchange, now: Instant) {
    && op in s.ord.outbox
    && (x.fault.NoFault? && !Overflows(start.inv.pos, lines) ==> s.ord.outbox[op].publishedAt == Some(now))
  }

  lemma TurnSettles(
    start: System, s: System, claim: Ordering.ClaimedWork, x: Exchange, config: WorkerConfig, now: Instant)
    requires ValidConfig(config) && Reachable(s) && claim in s.claims && Current(s, claim)
    requires FreshEvent(s, x.eventId) && x.eventId != NIL && x.at != 0 && SameShape(start.inv.pos, s.inv.pos)
    ensures RowSettled(
      start, Handled(s, claim, x, config, now), claim.commit.operationId, claim.commit.lines, x, now)
  {
    TurnTouchesItsRow(s, claim, x, config, now);
    if x.fault.NoFault? && !Overflows(start.inv.pos, claim.commit.lines) {
      ShapeDecidesOverflow(start.inv.pos, s.inv.pos, claim.commit.lines);
      FaultlessTurnPublishes(s, claim, x, config, now);
    }
  }

  lemma FaultlessTurnPublishes(
    s: System, claim: Ordering.ClaimedWork, x: Exchange, config: WorkerConfig, now: Instant)
    requires ValidConfig(config) && Reachable(s) && claim in s.claims && Current(s, claim) && x.fault.NoFault?
    requires FreshEvent(s, x.eventId) && x.eventId != NIL && x.at != 0 && !Overflows(s.inv.pos, claim.commit.lines)
    ensures claim.commit.operationId in Handled(s, claim, x, config, now).ord.outbox
    ensures Handled(s, claim, x, config, now).ord.outbox[claim.commit.operationId].publishedAt == Some(now)
  {
    ReachableHasInv(s);
    TurnPublishes(s, claim, x, config, now);
  }

  lemma TurnTouchesItsRow(s: System, claim: Ordering.ClaimedWork, x: Exchange, config: WorkerConfig, now: Instant)
    requires ValidConfig(config) && Reachable(s) && claim in s.claims
    ensures claim.commit.operationId in Handled(s, claim, x, config, now).ord.outbox
    ensures TouchedOnly(s, Handled(s, claim, x, config, now), claim.commit.operationId, x.eventId)
  {
    ReachableHasInv(s);
    TurnTouches(s, claim, x, config, now);
    ClaimMatchesItsRow(s, claim);
  }

  lemma TurnBoundsDelay(s: System, claim: Ordering.ClaimedWork, x: Exchange, config: WorkerConfig, now: Instant)
    requires ValidConfig(config) && Reachable(s) && claim in s.claims && Current(s, claim)
    requires FreshEvent(s, x.eventId) && x.eventId != NIL && x.at != 0
    requires DueBy(s.ord.outbox[claim.commit.operationId], config.leaseTimeout,
                   now + Max(config.leaseTimeout, config.retryMax as nat))
    ensures claim.commit.operationId in Handled(s, claim, x, config, now).ord.outbox
    ensures DueBy(Handled(s, claim, x, config, now).ord.outbox[claim.commit.operationId], config.leaseTimeout,
                  now + Max(config.leaseTimeout, config.retryMax as nat))
  {
    if x.fault.StoreFails? {
      FailedTurnKeepsTables(s, claim, x, config, now);
    } else {
      ReachableHasInv(s);
      TurnReleases(s, claim, x, config, now);
      var t := Handled(s, claim, x, config, now);
      ReleasedIsDue(t.ord.outbox[claim.commit.operationId], config, now, claim.attemptCount);
    }
  }

  lemma FailedTurnKeepsTables(s: System, claim: Ordering.ClaimedWork, x: Exchange, config: WorkerConfig, now: Instant)
    requires ValidConfig(config) && x.fault.StoreFails?
    ensures Handled(s, claim, x, config, now).ord == s.ord
  {
  }

  lemma ReleasedIsDue(row: Ordering.OutboxRow, config: WorkerConfig, now: Instant, attempt: nat)
    requires ValidConfig(config)
    requires row.publishedAt.Some? || (row.lockedAt.None? && row.nextAttemptAt == RetryAt(config, now, attempt))
    ensures DueBy(row, config.leaseTimeout, now + Max(config.leaseTimeout, config.retryMax as nat))
  {
  }

  /** The claims of one batch as the worker holds them. */
  ghost predicate Holds(start: System, ids: seq<Id>, work: seq<Ordering.ClaimedWork>) {
    && |ids| == |work| && NoRepeats(ids)
    && forall i :: 0 <= i < |ids| ==>
         && ids[i] in start.ord.outbox && work[i] in start.claims
         && work[i].commit.operationId == ids[i] && Current(start, work[i])
  }

  ghost predicate RowsDueBy(s: System, ids: seq<Id>, lease: nat, limit: Instant) {
    forall op :: op in ids ==> op in s.ord.outbox && DueBy(s.ord.outbox[op], lease, limit)
  }

  function Limit(config: WorkerConfig, now: Instant): Instant
    requires ValidConfig(config)
  {
    now + Max(config.leaseTimeout, config.retryMax as nat)
  }

  ghost predicate NotDrawn(eventId: Id, xs: seq<Exchange>) {
    forall x :: x in xs ==> x.eventId != eventId
  }

  /** The adapter draws no identifier but those of `xs`. */
  ghost predicate DrawsOnly(s: System, t: System, xs: seq<Exchange>) {
    forall eventId :: FreshEvent(s, eventId) && NotDrawn(eventId, xs) ==> FreshEvent(t, eventId)
  }

  /** The state of the loop after `n` turns. */
  ghost predicate InBatch(
    start: System, s: System, ids: seq<Id>, work: seq<Ordering.ClaimedWork>, xs: seq<Exchange>, now: Instant,
    config: WorkerConfig, n: nat)
    requires ValidConfig(config)
  {
    && n <= |ids| <= |xs| && Holds(start, ids, work)
    && Underway(start, s, ids[..n], xs[n..]) && DrawsOnly(start, s, xs)
    && RowsDueBy(s, ids, config.leaseTimeout, Limit(config, now))
    && forall j :: 0 <= j < n ==> RowSettled(start, s, ids[j], work[j].commit.lines, xs[j], now)
  }

  lemma NextClaimIsReady(
    start: System, s: System, ids: seq<Id>, work: seq<Ordering.ClaimedWork>, xs: seq<Exchange>, now: Instant,
    config: WorkerConfig, n: nat)
    requires ValidConfig(config) && InBatch(start, s, ids, work, xs, now, config, n) && n < |ids|
    ensures work[n] in s.claims && Current(s, work[n])
    ensures FreshEvent(s, xs[n].eventId) && xs[n].eventId != NIL && xs[n].at != 0
  {
  }

  lemma BatchTurn(
    start: System, s: System, ids: seq<Id>, work: seq<Ordering.ClaimedWork>, xs: seq<Exchange>, now: Instant,
    config: WorkerConfig, n: nat)
    requires ValidConfig(config) && InBatch(start, s, ids, work, xs, now, config, n) && n < |ids| && Reachable(s)
    ensures InBatch(start, Handled(s, work[n], xs[n], config, now), ids, work, xs, now, config, n + 1)
  {
    var t := Handled(s, work[n], xs[n], config, now);
    NextClaimIsReady(start, s, ids, work, xs, now, config, n);
    TurnTouchesItsRow(s, work[n], xs[n], config, now);
    TurnSettles(start, s, work[n], xs[n], config, now);
    TurnBoundsDelay(s, work[n], xs[n], config, now);
    BatchGoesOn(start, s, t, ids, work, xs, now, config, n);
  }

  lemma BatchGoesOn(
    start: System, s: System, t: System, ids: seq<Id>, work: seq<Ordering.ClaimedWork>, xs: seq<Exchange>, now: Instant,
    config: WorkerConfig, n: nat)
    requires ValidConfig(config) && InBatch(start, s, ids, work, xs, now, config, n) && n < |ids|
    requires TouchedOnly(s, t, ids[n], xs[n].eventId)
    requires RowSettled(start, t, ids[n], work[n].commit.lines, xs[n], now)
    requires ids[n] in t.ord.outbox && DueBy(t.ord.outbox[ids[n]], config.leaseTimeout, Limit(config, now))
    ensures InBatch(start, t, ids, work, xs, now, config, n + 1)
  {
    assert xs[n..][0] == xs[n] && xs[n..][1..] == xs[n + 1..];
    assert ids[..n] + [ids[n]] == ids[..n + 1];
    TurnGoesOn(start, s, t, ids[..n], ids[n], xs[n..]);
    assert xs[n] in xs;
    DrawsGoOn(start, s, t, xs, xs[n].eventId);
    SettledGoesOn(start, s, t, ids, work, xs, now, n);
  }

  lemma DrawsGoOn(start: System, s: System, t: System, xs: seq<Exchange>, drawn: Id)
    requires DrawsOnly(start, s, xs) && !NotDrawn(drawn, xs)
    requires forall other :: other != drawn && FreshEvent(s, other) ==> FreshEvent(t, other)
    ensures DrawsOnly(start, t, xs)
  {
  }

  lemma SettledGoesOn(
    start: System, s: System, t: System, ids: seq<Id>, work: seq<Ordering.ClaimedWork>, xs: seq<Exchange>, now: Instant,
    n: nat)
    requires n < |ids| == |work| && |ids| <= |xs| && NoRepeats(ids)
    requires s.ord.outbox.Keys == t.ord.outbox.Keys
    requires forall p :: p in s.ord.outbox && p != ids[n] ==> t.ord.outbox[p] == s.ord.outbox[p]
    requires forall j :: 0 <= j < n ==> RowSettled(start, s, ids[j], work[j].commit.lines, xs[j], now)
    requires RowSettled(start, t, ids[n], work[n].commit.lines, xs[n], now)
    ensures forall j :: 0 <= j < n + 1 ==> RowSettled(start, t, ids[j], work[j].commit.lines, xs[j], now)
  {
  }

  lemma ClaimedIsHeld(s: System, ids: seq<Id>, work: seq<Ordering.ClaimedWork>, tokens: seq<Id>, now: Instant)
    requires Claiming(s.claims, s.ord.outbox) && NoRepeats(ids) && Ordering.WorkFor(s.ord, ids, tokens, work)
    ensures Holds(Claimed(s, ids, tokens, now), ids, work)
  {
    Ordering.ClaimAllTouches(s.ord, ids, tokens, now);
    forall i | 0 <= i < |ids|
      ensures work[i] in WorkSet(s.ord, ids, tokens) && work[i].commit.operationId == ids[i]
    {
    }
  }

  lemma ClaimedIsDue(
    s: System, ids: seq<Id>, work: seq<Ordering.ClaimedWork>, tokens: seq<Id>, now: Instant, config: WorkerConfig)
    requires ValidConfig(config) && Ordering.IsBatch(s.ord, ids, now, config.leaseTimeout, config.batchSize)
    requires Ordering.WorkFor(s.ord, ids, tokens, work)
    ensures RowsDueBy(Claimed(s, ids, tokens, now), ids, config.leaseTimeout, Limit(config, now))
  {
    Ordering.ClaimAllTouches(s.ord, ids, tokens, now);
    forall op | op in ids
      ensures DueBy(Claimed(s, ids, tokens, now).ord.outbox[op], config.leaseTimeout, Limit(config, now))
    {
      var i :| 0 <= i < |ids| && ids[i] == op;
    }
  }

  lemma BatchStarts(
    s: System, ids: seq<Id>, work: seq<Ordering.ClaimedWork>, tokens: seq<Id>, xs: seq<Exchange>, now: Instant,
    config: WorkerConfig)
    requires ValidConfig(config) && Reachable(s) && Ordering.WorkFor(s.ord, ids, tokens, work)
    requires Ordering.IsBatch(s.ord, ids, now, config.leaseTimeout, config.batchSize)
    requires |ids| <= |xs| && FreshTokens(s, tokens) && FreshExchanges(s, xs)
    ensures var start := Claimed(s, ids, tokens, now);
      && Reachable(start) && Reaches(s, ClaimSteps(ids, tokens, now, config.leaseTimeout), start)
      && InBatch(start, start, ids, work, xs, now, config, 0)
  {
    ClaimsAreSteps(s, ids, tokens, now, config.leaseTimeout);
    StepsStayReachable(s, ClaimSteps(ids, tokens, now, config.leaseTimeout), Claimed(s, ids, tokens, now));
    ReachableHasInv(s);
    assert LayerHolds(ExchangeLayer, s);
    ClaimedIsHeld(s, ids, work, tokens, now);
    ClaimedIsDue(s, ids, work, tokens, now, config);
    assert xs[0..] == xs;
    StillFresh(s, Claimed(s, ids, tokens, now), xs);
  }

  lemma StillFresh(s: System, t: System, xs: seq<Exchange>)
    requires FreshExchanges(s, xs) && t.inv == s.inv
    ensures FreshExchanges(t, xs)
  {
  }

  method NextAttempt(config: WorkerConfig, now: Instant, attempt: nat) returns (next: Instant)
    requires ValidConfig(config)
    ensures next == RetryAt(config, now, attempt)
  {
    var delay, _ := RetryDelay(config.retryBase, config.retryMax, attempt);
    ghost var at := RetryAt(config, now, attempt);
    assert at == now + delay as int;
    next := now + delay as int;
  }

  // ----- The worker -----

  class Worker {
    const store: Ordering.Store
    const inventory: Inventory.Store
    const config: WorkerConfig
    /** The system as the protocol sees it, in the state some run of the protocol has reached; the two stores are
        its tables. */
    ghost var world: System

    constructor (store: Ordering.Store, inventory: Inventory.Store, config: WorkerConfig, ghost world: System)
      requires world.ord == store.View() && world.inv == inventory.View() && Reachable(world) && ValidConfig(config)
      ensures InSync() && this.store == store && this.inventory == inventory && this.config == config
    {
      this.store, this.inventory, this.config, this.world := store, inventory, config, world;
    }

    ghost predicate InSync()
      reads this, store, inventory
    {
      && world.ord == store.View() && world.inv == inventory.View() && Reachable(world) && ValidConfig(config)
    }

    /** The adapter's service: validates and fingerprints the command, commits, and checks what the store says. */
    method Serve(command: CommitCommand, eventId: Id, at: Instant) returns (answer: Option<CommitResult>)
      modifies inventory
      ensures (inventory.View(), answer) == old(Protocol.Serve(inventory.View(), command, eventId, at))
    {
      var fingerprint := Fingerprint(command);
      if fingerprint.None? {
        return None;
      }
      var outcome := inventory.CommitOnce(command, fingerprint.value, eventId, at);
      if !outcome.Replied? {
        return None;
      }
      var valid := Inventory.ValidateResult(outcome.result);
      if !valid || outcome.result.operationId != command.operationId || outcome.result.orderId != command.orderId {
        return None;
      }
      return Some(outcome.result);
    }

    /** The committer: sends the request and validates the reply, if the exchange gets that far. */
    method Exchange(claim: Ordering.ClaimedWork, x: Exchange) returns (received: Option<CommitResult>)
      requires InSync() && claim in world.claims
      modifies this`world, inventory
      ensures world.ord == store.View() && world.inv == inventory.View()
      ensures world == Sent(old(world), claim, x) && received == Received(old(world), claim, x)
    {
      ClaimedLinesAreDistinct(world, claim);
      if x.fault.NotSent? {
        return None;
      }
      ghost var before := world;
      var answer := Serve(claim.commit, x.eventId, x.at);
      world := Called(before, claim, x.eventId, x.at);
      if answer.None? {
        return None;
      }
      var acceptable := ValidateReply(answer.value, claim.commit);
      return if acceptable && !x.fault.ReplyLost? then answer else None;
    }

    /** A result for a current claim is always applied. */
    method ApplyResult(claim: Ordering.ClaimedWork, result: CommitResult, now: Instant) returns (ok: bool)
      requires InSync() && Reply(claim, result) in world.replies && Current(world, claim)
      modifies this`world, store
      ensures world.ord == store.View() && world.inv == inventory.View()
      ensures ok && world == old(world).(ord := Ordering.Apply(old(world).ord, claim, result, now).0)
    {
      ghost var before := world;
      CurrentReplyIsApplied(before, Reply(claim, result), now);
      var outcome := store.ApplyInventoryResult(claim, result, now);
      ok := outcome.Applied? || outcome.Replayed?;
      world := before.(ord := store.View());
    }

    /** Without a result, a current claim is always released for its next attempt. */
    method Reschedule(claim: Ordering.ClaimedWork, fault: Fault, now: Instant) returns (ok: bool)
      requires InSync() && claim in world.claims && Current(world, claim)
      modifies this`world, store
      ensures world.ord == store.View() && world.inv == inventory.View()
      ensures ok && world == old(world).(ord := Ordering.Retry(
        old(world).ord, claim, RetryAt(config, now, claim.attemptCount), ErrorCode(fault)).0)
    {
      ghost var before := world;
      CurrentClaimIsReleased(before, claim);
      var next := NextAttempt(config, now, claim.attemptCount);
      ok := store.RetryInventoryWork(claim, next, ErrorCode(fault));
      world := before.(ord := store.View());
    }

    /** One turn of the loop. */
    method Handle(claim: Ordering.ClaimedWork, x: Exchange, now: Instant) returns (ok: bool)
      requires InSync() && claim in world.claims && Current(world, claim)
      requires FreshEvent(world, x.eventId) && x.eventId != NIL && x.at != 0
      modifies this`world, store, inventory
      ensures InSync() && world == Handled(old(world), claim, x, config, now)
      ensures ok <==> !x.fault.StoreFails?
    {
      ghost var before := world;
      SentIsReachable(before, claim, x);
      HandledIsReachable(before, claim, x, config, now);
      var received := Exchange(claim, x);
      if x.fault.StoreFails? {
        return false;
      }
      if received.Some? {
        ok := ApplyResult(claim, received.value, now);
      } else {
        ok := Reschedule(claim, x.fault, now);
      }
    }

    /** The claim at the start of `ProcessOnce`. */
    method ClaimBatch(now: Instant, tokens: seq<Id>, xs: seq<Exchange>)
      returns (work: seq<Ordering.ClaimedWork>, ids: seq<Id>, ghost steps: seq<Action>)
      requires InSync() && FreshTokens(world, tokens) && FreshExchanges(world, xs)
      requires config.batchSize <= |tokens| && config.batchSize <= |xs|
      modifies this`world, store
      ensures InSync() && Reaches(old(world), steps, world)
      ensures Ordering.IsBatch(old(world).ord, ids, now, config.leaseTimeout, config.batchSize)
      ensures Ordering.WorkFor(old(world).ord, ids, tokens, work)
      ensures world == Claimed(old(world), ids, tokens, now)
      ensures InBatch(world, world, ids, work, xs, now, config, 0)
    {
      ghost var before := world;
      work, ids := store.ClaimInventoryWork(now, config.leaseTimeout, config.batchSize, tokens);
      BatchStarts(before, ids, work, tokens, xs, now, config);
      world := Claimed(before, ids, tokens, now);
      steps := ClaimSteps(ids, tokens, now, config.leaseTimeout);
    }

    /** The loop of `ProcessOnce`. */
    method HandleBatch(ids: seq<Id>, work: seq<Ordering.ClaimedWork>, xs: seq<Exchange>, now: Instant)
      returns (ok: bool, done: nat, ghost steps: seq<Action>)
      requires InSync() && InBatch(world, world, ids, work, xs, now, config, 0)
      modifies this`world, store, inventory
      ensures InSync() && Reaches(old(world), steps, world)
      ensures InBatch(old(world), world, ids, work, xs, now, config, done)
      ensures ok ==> done == |ids|
      ensures (forall j :: 0 <= j < |ids| ==> !xs[j].fault.StoreFails?) ==> ok
    {
      ghost var start := world;
      steps, done, ok := [], 0, true;
      ReachesItself(start);
      while done < |work|
        invariant done <= |work|
        invariant InSync() && Reaches(start, steps, world)
        invariant InBatch(start, world, ids, work, xs, now, config, done)
      {
        ghost var s := world;
        NextClaimIsReady(start, s, ids, work, xs, now, config, done);
        BatchTurn(start, s, ids, work, xs, now, config, done);
        TurnIsSteps(s, work[done], xs[done], config, now);
        ok := Handle(work[done], xs[done], now);
        StepsCompose(start, steps, s, Turn(s, work[done], xs[done], config, now), world);
        steps, done := steps + Turn(s, work[done], xs[done], config, now), done + 1;
        if !ok {
          return;
        }
      }
    }

    /** `ProcessOnce`. Every claimed row is published or due again within the lease or the longest delay; a row
        whose exchange goes well is published; no other row is touched. */
    method ProcessOnce(now: Instant, tokens: seq<Id>, xs: seq<Exchange>)
      returns (count: nat, ok: bool, ids: seq<Id>, ghost steps: seq<Action>)
      requires InSync() && FreshTokens(world, tokens) && FreshExchanges(world, xs)
      requires config.batchSize <= |tokens| && config.batchSize <= |xs|
      modifies this`world, store, inventory
      ensures InSync() && Reaches(old(world), steps, world)
      ensures Ordering.IsBatch(old(world).ord, ids, now, config.leaseTimeout, config.batchSize)
      ensures BatchDone(old(world), world, ids, tokens, xs, now, config, ok)
      ensures ok ==> count == |ids|
      ensures (forall j :: 0 <= j < |ids| ==> !xs[j].fault.StoreFails?) ==> ok
    {
      ghost var before := world;
      var work;
      ghost var first, rest;
      work, ids, first := ClaimBatch(now, tokens, xs);
      ghost var start := world;
      var done;
      ok, done, rest := HandleBatch(ids, work, xs, now);
      steps := first + rest;
      StepsCompose(before, first, start, rest, world);
      BatchEnds(before, start, world, ids, work, tokens, xs, now, config, done, ok);
      count := if ok then |work| else 0;
    }

    /** One tick of `Run`. */
    method Tick(rounds: seq<Round>, ghost favourable: bool) returns (ok: bool, ghost steps: seq<Action>)
      requires InSync() && rounds != [] && Supplied(world, rounds, config)
      requires favourable ==> Favourable(world, rounds, config)
      modifies this`world, store, inventory
      ensures InSync() && Reaches(old(world), steps, world) && Supplied(world, rounds[1..], config)
      ensures favourable ==> ok && Favourable(world, rounds[1..], config)
      ensures favourable ==> |Backlog(world.ord)| == Minus(|Backlog(old(world).ord)|, config.batchSize)
    {
      ghost var s := world;
      FirstRoundIsSupplied(s, rounds, config);
      var count, ids;
      count, ok, ids, steps := ProcessOnce(rounds[0].now, rounds[0].tokens, rounds[0].xs);
      AfterRound(s, world, rounds, ids, config, ok, favourable);
    }

    /** `Run`: one batch at once and one per tick, until the last tick or an error. */
    method Run(rounds: seq<Round>) returns (ok: bool, ghost steps: seq<Action>)
      requires InSync() && Supplied(world, rounds, config)
      modifies this`world, store, inventory
      ensures InSync() && Reaches(old(world), steps, world)
      ensures Favourable(old(world), rounds, config) ==>
        ok && |Backlog(world.ord)| == Left(|Backlog(old(world).ord)|, |rounds|, config.batchSize)
    {
      ghost var before, favourable := world, Favourable(world, rounds, config);
      steps, ok := [], true;
      ReachesItself(before);
      var rest := rounds;
      ghost var k, left := 0, |Backlog(world.ord)|;
      while rest != []
        invariant k + |rest| == |rounds| && left == Left(|Backlog(before.ord)|, k, config.batchSize)
        invariant InSync() && Reaches(before, steps, world) && Supplied(world, rest, config)
        invariant favourable ==> ok && Favourable(world, rest, config)
        invariant favourable ==> |Backlog(world.ord)| == left
        decreases |rest|
      {
        ghost var s, more := world, [];
        ok, more := Tick(rest, favourable);
        StepsCompose(before, steps, s, more, world);
        steps, rest := steps + more, rest[1..];
        k, left := k + 1, Minus(left, config.batchSize);
        if !ok {
          return;
        }
      }
    }
  }

  // ----- Draining a backlog -----

  datatype Round = Round(now: Instant, tokens: seq<Id>, xs: seq<Exchange>)

  ghost function Backlog(t: Ordering.Tables): set<Id> {
    set op | op in t.outbox && t.outbox[op].publishedAt.None?
  }

  function Minus(a: nat, b: nat): nat {
    if b < a then a - b else 0
  }

  /** What is left of `n` rows after `k` batches. */
  function Left(n: nat, k: nat, batch: nat): nat {
    if k == 0 then n else Minus(Left(n, k - 1, batch), batch)
  }

  /** A backlog of `n` rows is empty after `k` rounds exactly when `k` batches hold it. */
  lemma {:induction false} LeftIsDifference(n: nat, k: nat, batch: nat)
    ensures Left(n, k, batch) == Minus(n, k * batch)
    ensures Left(n, k, batch) == 0 <==> n <= k * batch
  {
    if k > 0 {
      LeftIsDifference(n, k - 1, batch);
      assert k * batch == (k - 1) * batch + batch;
    }
  }

  ghost predicate RoundSupplied(s: System, r: Round, config: WorkerConfig) {
    config.batchSize <= |r.tokens| && config.batchSize <= |r.xs| && FreshTokens(s, r.tokens) && FreshExchanges(s, r.xs)
  }

  ghost predicate Apart(a: Round, b: Round) {
    && (forall token :: token in a.tokens ==> token !in b.tokens)
    && (forall x :: x in b.xs ==> NotDrawn(x.eventId, a.xs))
  }

  /** Every round has its own fresh claim tokens and event identifiers. */
  ghost predicate Supplied(s: System, rounds: seq<Round>, config: WorkerConfig) {
    && (forall k :: 0 <= k < |rounds| ==> RoundSupplied(s, rounds[k], config))
    && (forall k, l :: 0 <= k < l < |rounds| ==> Apart(rounds[k], rounds[l]))
  }

  lemma FirstRoundIsSupplied(s: System, rounds: seq<Round>, config: WorkerConfig)
    requires rounds != [] && Supplied(s, rounds, config)
    ensures RoundSupplied(s, rounds[0], config)
  {
  }

  lemma RestIsSupplied(s: System, t: System, rounds: seq<Round>, ids: seq<Id>, config: WorkerConfig, ok: bool)
    requires ValidConfig(config) && rounds != [] && Supplied(s, rounds, config)
    requires BatchDone(s, t, ids, rounds[0].tokens, rounds[0].xs, rounds[0].now, config, ok)
    ensures Supplied(t, rounds[1..], config)
  {
  }

  /** One worker, no faults, time past every due time and lease, and no order the adapter must refuse. */
  ghost predicate Favourable(s: System, rounds: seq<Round>, config: WorkerConfig) {
    && (forall k, x :: 0 <= k < |rounds| && x in rounds[k].xs ==> x.fault.NoFault?)
    && (forall k, l :: 0 <= k <= l < |rounds| ==> rounds[k].now <= rounds[l].now)
    && (forall op :: op in Backlog(s.ord) ==> !Overflows(s.inv.pos, s.ord.outbox[op].payload.lines))
    && (forall op, k :: op in Backlog(s.ord) && 0 <= k < |rounds| ==>
          DueAt(s.ord.outbox[op], config.leaseTimeout) <= rounds[k].now)
  }

  lemma BatchPublishes(
    s: System, t: System, r: Round, ids: seq<Id>, config: WorkerConfig)
    requires ValidConfig(config) && BatchDone(s, t, ids, r.tokens, r.xs, r.now, config, true)
    requires forall x :: x in r.xs ==> x.fault.NoFault?
    requires forall op :: op in Backlog(s.ord) ==> !Overflows(s.inv.pos, s.ord.outbox[op].payload.lines)
    requires forall op :: op in ids ==> op in Backlog(s.ord)
    ensures Backlog(t.ord) == Backlog(s.ord) - Elements(ids)
  {
  }

  lemma BacklogIsDue(s: System, now: Instant, lease: nat)
    requires forall op :: op in Backlog(s.ord) ==> DueAt(s.ord.outbox[op], lease) <= now
    ensures Backlog(s.ord) == Ordering.Candidates(s.ord, now, lease)
  {
  }

  /** A favourable round takes a full batch off the backlog, or all that is left of it. */
  lemma RoundDrains(s: System, t: System, rounds: seq<Round>, ids: seq<Id>, config: WorkerConfig, ok: bool)
    requires ValidConfig(config) && rounds != [] && Favourable(s, rounds, config)
    requires config.batchSize <= |rounds[0].xs|
    requires Ordering.IsBatch(s.ord, ids, rounds[0].now, config.leaseTimeout, config.batchSize)
    requires BatchDone(s, t, ids, rounds[0].tokens, rounds[0].xs, rounds[0].now, config, ok)
    requires (forall j :: 0 <= j < |ids| ==> !rounds[0].xs[j].fault.StoreFails?) ==> ok
    ensures ok && Favourable(t, rounds[1..], config)
    ensures |Backlog(t.ord)| == Minus(|Backlog(s.ord)|, config.batchSize)
  {
    var r := rounds[0];
    BacklogIsDue(s, r.now, config.leaseTimeout);
    assert ok by {
      assert forall j :: 0 <= j < |ids| ==> r.xs[j] in r.xs;
    }
    BatchPublishes(s, t, r, ids, config);
    NoRepeatsCount(ids);
    CardinalityOfSubset(Elements(ids), Backlog(s.ord));
    if |ids| < config.batchSize {
      assert Backlog(s.ord) == Elements(ids);
    }
    RestIsFavourable(s, t, rounds, ids, config);
  }

  lemma AfterRound(
    s: System, t: System, rounds: seq<Round>, ids: seq<Id>, config: WorkerConfig, ok: bool, favourable: bool)
    requires ValidConfig(config) && rounds != [] && Supplied(s, rounds, config)
    requires Ordering.IsBatch(s.ord, ids, rounds[0].now, config.leaseTimeout, config.batchSize)
    requires BatchDone(s, t, ids, rounds[0].tokens, rounds[0].xs, rounds[0].now, config, ok)
    requires (forall j :: 0 <= j < |ids| ==> !rounds[0].xs[j].fault.StoreFails?) ==> ok
    requires favourable ==> Favourable(s, rounds, config)
    ensures Supplied(t, rounds[1..], config)
    ensures favourable ==>
      ok && Favourable(t, rounds[1..], config) && |Backlog(t.ord)| == Minus(|Backlog(s.ord)|, config.batchSize)
  {
    RestIsSupplied(s, t, rounds, ids, config, ok);
    if favourable {
      RoundDrains(s, t, rounds, ids, config, ok);
    }
  }

  lemma RestIsFavourable(s: System, t: System, rounds: seq<Round>, ids: seq<Id>, config: WorkerConfig)
    requires ValidConfig(config) && rounds != [] && Favourable(s, rounds, config)
    requires BatchDone(s, t, ids, rounds[0].tokens, rounds[0].xs, rounds[0].now, config, true)
    requires Backlog(t.ord) == Backlog(s.ord) - Elements(ids)
    ensures Favourable(t, rounds[1..], config)
  {
  }

  /** What one batch did, in terms of the state it started from. */
  ghost predicate BatchDone(
    before: System, after: System, ids: seq<Id>, tokens: seq<Id>, xs: seq<Exchange>, now: Instant,
    config: WorkerConfig, ok: bool)
    requires ValidConfig(config)
  {
    && after.ord.outbox.Keys == before.ord.outbox.Keys && SameShape(before.inv.pos, after.inv.pos)
    && (forall token :: FreshToken(before, token) && token !in tokens ==> FreshToken(after, token))
    && DrawsOnly(before, after, xs)
    && (forall op :: op in before.ord.outbox && op !in ids ==> after.ord.outbox[op] == before.ord.outbox[op])
    && RowsDueBy(after, ids, config.leaseTimeout, Limit(config, now))
    && (ok ==> |ids| <= |xs| && forall j :: 0 <= j < |ids| ==>
          ids[j] in before.ord.outbox
          && RowSettled(before, after, ids[j], before.ord.outbox[ids[j]].payload.lines, xs[j], now))
  }

  lemma BatchEnds(
    before: System, start: System, after: System, ids: seq<Id>, work: seq<Ordering.ClaimedWork>, tokens: seq<Id>,
    xs: seq<Exchange>, now: Instant, config: WorkerConfig, done: nat, ok: bool)
    requires ValidConfig(config) && NoRepeats(ids) && Ordering.WorkFor(before.ord, ids, tokens, work)
    requires start == Claimed(before, ids, tokens, now)
    requires InBatch(start, after, ids, work, xs, now, config, done) && (ok ==> done == |ids|)
    ensures BatchDone(before, after, ids, tokens, xs, now, config, ok)
  {
    Ordering.ClaimAllTouches(before.ord, ids, tokens, now);
    forall eventId | FreshEvent(before, eventId) && NotDrawn(eventId, xs)
      ensures FreshEvent(after, eventId)
    {
      assert FreshEvent(start, eventId);
    }
    if ok {
      forall j | 0 <= j < |ids|
        ensures RowSettled(before, after, ids[j], before.ord.outbox[ids[j]].payload.lines, xs[j], now)
      {
        assert RowSettled(start, after, ids[j], work[j].commit.lines, xs[j], now);
      }
    }
  }

  lemma ClaimedLinesAreDistinct(s: System, claim: Ordering.ClaimedWork)
    requires Reachable(s) && claim in s.claims
    ensures DistinctLineIds(claim.commit.lines)
  {
    ReachableHasInv(s);
    ClaimIsRequest(s, claim);
  }

  lemma CurrentReplyIsApplied(s: System, reply: Reply, now: Instant)
    requires Reachable(s) && reply in s.replies && Current(s, reply.claim)
    ensures Ordering.Constrained(s.ord)
    ensures Ordering.Apply(s.ord, reply.claim, reply.result, now).1.Applied?
  {
    ReachableHasInv(s);
    assert LayerHolds(OrderingLayer, s);
    EventsAreUnique(s.callers, s.ord);
    ApplyOutcomeIs(s, reply, now);
    CurrentIsPending(s, reply.claim.commit.operationId);
  }

  lemma CurrentClaimIsReleased(s: System, claim: Ordering.ClaimedWork)
    requires Reachable(s) && claim in s.claims && Current(s, claim)
    ensures Ordering.HoldsSome(s.ord, claim)
  {
    ReachableHasInv(s);
    assert LayerHolds(OrderingLayer, s) && LayerHolds(InventoryLayer, s);
    ClaimIsRequest(s, claim);
    InvMatchesEvents(s);
    CurrentIsUnpublished(s, claim.commit.operationId);
    assert Ordering.HeldBy(s.ord.outbox[claim.commit.operationId], claim);
  }

  lemma SentIsReachable(s: System, claim: Ordering.ClaimedWork, x: Exchange)
    requires Reachable(s) && claim in s.claims && FreshEvent(s, x.eventId) && x.eventId != NIL && x.at != 0
    ensures Reachable(Sent(s, claim, x)) && Sent(s, claim, x).claims == s.claims && Sent(s, claim, x).ord == s.ord
    ensures Received(s, claim, x).Some? ==> Reply(claim, Received(s, claim, x).value) in Sent(s, claim, x).replies
  {
    SendTouches(s, claim, x);
    SentIsStep(s, claim, x);
    StepsStayReachable(s, if x.fault.NotSent? then [] else [CallAdapter(claim, x.eventId, x.at)], Sent(s, claim, x));
    if Received(s, claim, x).Some? {
      ReceivedIsReply(s, claim, x);
    }
  }

  lemma HandledIsReachable(s: System, claim: Ordering.ClaimedWork, x: Exchange, config: WorkerConfig, now: Instant)
    requires ValidConfig(config) && Reachable(s) && claim in s.claims
    requires FreshEvent(s, x.eventId) && x.eventId != NIL && x.at != 0
    ensures Reachable(Handled(s, claim, x, config, now))
  {
    TurnIsSteps(s, claim, x, config, now);
    StepsStayReachable(s, Turn(s, claim, x, config, now), Handled(s, claim, x, config, now));
  }
}
