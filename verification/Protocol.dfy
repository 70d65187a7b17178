/** The order protocol as one system: the ordering tables, the adapter's database, and everything the processes
    in between have ever been told. Claims and replies are never forgotten, so any worker may act on any of them
    at any later time and any number of times: that covers crashes, lost and duplicated replies, expired leases
    and several workers on one row. A transaction that aborts is no step. */
module Protocol {
  import opened Basics
  import opened CommitDomain
  import opened CommitDecision
  import opened OrderingDomain
  import opened OrderingStore
  import Inventory = InventoryStore
  import opened CommitTheorems
  import opened Canonical

  datatype Stage = Looking | Missing | Conflicted | Answered(answer: PlaceAnswer)

  datatype Caller = Caller(draft: Draft, stage: Stage)

  datatype Reply = Reply(claim: ClaimedWork, result: CommitResult)

  /** `callers` is keyed by the order identifier in the caller's draft. `decidedOn` and `outside` are history:
      the POS tables each receipt was decided on, and the stock changes made by others since the start. */
  datatype System = System(
    ord: Tables, inv: Inventory.Database, callers: map<Id, Caller>, claims: set<ClaimedWork>, replies: set<Reply>,
    decidedOn: map<Id, Pos>, start: Pos, outside: map<Id, int>)

  datatype Action =
    | Arrive(draft: Draft)
    | Lookup(caller: Id)
    | InsertDraft(caller: Id)
    | LookupAgain(caller: Id)
    | ClaimWork(op: Id, token: Id, now: Instant, lease: nat)
    | CallAdapter(claim: ClaimedWork, eventId: Id, now: Instant)
    | ApplyReply(reply: Reply, now: Instant)
    | RetryClaim(claim: ClaimedWork, next: Instant, errorCode: string)
    | AdvanceOrder(order: Id, target: FulfillmentStatus, now: Instant)
    | ChangePos(pos: Pos)

  ghost predicate Init(s: System) {
    && s.ord == Tables(map[], map[], map[], map[], [])
    && s.inv.movements == [] && s.inv.receipts == map[] && s.inv.pos == s.start
    && s.callers == map[] && s.claims == {} && s.replies == {} && s.decidedOn == map[] && s.outside == map[]
  }

  // ----- Guards -----

  ghost predicate SharesLine(a: Draft, b: Draft) {
    exists x, y :: x in a.lines && y in b.lines && x.id == y.id
  }

  /** The two drafts have no identifier in common. */
  ghost predicate Disjoint(a: Draft, b: Draft) {
    a.orderId != b.orderId && a.eventId != b.eventId && a.operationId != b.operationId && !SharesLine(a, b)
  }

  ghost predicate FreshDraft(s: System, draft: Draft) {
    draft.orderId !in s.callers && forall o :: o in s.callers ==> Disjoint(draft, s.callers[o].draft)
  }

  ghost predicate FreshToken(s: System, token: Id) {
    forall c :: c in s.claims ==> c.claimToken != token
  }

  ghost predicate FreshEvent(s: System, eventId: Id) {
    forall op :: op in s.inv.receipts ==> s.inv.receipts[op].result.eventId != eventId
  }

  ghost predicate AtStage(s: System, caller: Id, stage: Stage) {
    caller in s.callers && s.callers[caller].stage == stage
  }

  ghost predicate Enabled(s: System, a: Action) {
    match a
    case Arrive(draft) => ValidDraft(draft) && FreshDraft(s, draft)
    case Lookup(caller) => AtStage(s, caller, Looking)
    case InsertDraft(caller) => AtStage(s, caller, Missing)
    case LookupAgain(caller) => AtStage(s, caller, Conflicted)
    case ClaimWork(op, token, now, lease) =>
      op in s.ord.outbox && Claimable(s.ord.outbox[op], now, lease) && FreshToken(s, token)
    case CallAdapter(claim, eventId, now) => claim in s.claims && eventId != NIL && now != 0 && FreshEvent(s, eventId)
    case ApplyReply(reply, _) => reply in s.replies
    case RetryClaim(claim, _, _) => claim in s.claims
    case AdvanceOrder(_, _, _) => true
    case ChangePos(_) => true
  }

  // ----- Steps -----

  function Get(m: map<Id, int>, id: Id): int {
    if id in m then m[id] else 0
  }

  function Moving(s: System, caller: Id, stage: Stage): System
    requires caller in s.callers
  {
    s.(callers := s.callers[caller := s.callers[caller].(stage := stage)])
  }

  ghost function AnswerOf(found: Found): PlaceAnswer {
    match found
    case NoCheckout => Failed
    case Replay(o) => Placed(o, true)
    case CheckoutConflict => Conflicting
  }

  /** The adapter's application service: validates and fingerprints the command, commits, checks the answer. */
  ghost function Serve(db: Inventory.Database, command: CommitCommand, eventId: Id, now: Instant)
    : (Inventory.Database, Option<CommitResult>)
  {
    if !ValidCommand(command) then (db, None)
    else
      var (after, outcome) := Inventory.Commit(db, command, CanonicalText(command), eventId, now);
      if outcome.Replied? && ValidResult(outcome.result) && outcome.result.operationId == command.operationId
         && outcome.result.orderId == command.orderId
      then (after, Some(outcome.result))
      else (after, None)
  }

  ghost function Called(s: System, claim: ClaimedWork, eventId: Id, now: Instant): System {
    var (inv, answer) := Serve(s.inv, claim.commit, eventId, now);
    s.(inv := inv,
       replies := if answer.Some? && AcceptableReply(answer.value, claim.commit)
                  then s.replies + {Reply(claim, answer.value)} else s.replies,
       decidedOn := if inv.receipts.Keys == s.inv.receipts.Keys then s.decidedOn
                    else s.decidedOn[claim.commit.operationId := s.inv.pos])
  }

  ghost function Next(s: System, a: Action): System
    requires Enabled(s, a)
  {
    match a
    case Arrive(draft) => s.(callers := s.callers[draft.orderId := Caller(draft, Looking)])
    case Lookup(caller) =>
      var found := Find(s.ord, s.callers[caller].draft);
      Moving(s, caller, if found.NoCheckout? then Missing else Answered(AnswerOf(found)))
    case InsertDraft(caller) =>
      var (ord, outcome) := Insert(s.ord, s.callers[caller].draft);
      Moving(s.(ord := ord), caller,
             match outcome
             case Inserted => Answered(Placed(caller, false))
             case CheckoutTaken => Conflicted
             case InsertFailed => Answered(Failed))
    case LookupAgain(caller) =>
      Moving(s, caller, Answered(AnswerOf(Find(s.ord, s.callers[caller].draft))))
    case ClaimWork(op, token, now, _) =>
      s.(ord := Claim(s.ord, op, token, now), claims := s.claims + {WorkOf(s.ord.outbox[op], token)})
    case CallAdapter(claim, eventId, now) => Called(s, claim, eventId, now)
    case ApplyReply(reply, now) => s.(ord := Apply(s.ord, reply.claim, reply.result, now).0)
    case RetryClaim(claim, next, errorCode) => s.(ord := Retry(s.ord, claim, next, errorCode).0)
    case AdvanceOrder(order, target, now) => s.(ord := Advance(s.ord, order, target, now).0)
    case ChangePos(pos) =>
      s.(inv := s.inv.(pos := pos),
         outside := map id | id in s.outside.Keys + s.inv.pos.items.Keys + pos.items.Keys ::
           Get(s.outside, id) + Stock(pos, id) - Stock(s.inv.pos, id))
  }

  ghost predicate StepAt(states: seq<System>, actions: seq<Action>, i: nat)
    requires i < |actions| < |states|
  {
    Enabled(states[i], actions[i]) && states[i + 1] == Next(states[i], actions[i])
  }

  /** A run: a starting state and any finite number of enabled steps. */
  ghost predicate IsRun(states: seq<System>, actions: seq<Action>) {
    && |states| == |actions| + 1
    && Init(states[0])
    && forall i: nat :: i < |actions| ==> StepAt(states, actions, i)
  }
}
