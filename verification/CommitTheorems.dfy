/** Properties of the commit transaction: conservation of stock, replay, and independence of line order. */
module CommitTheorems {
  import opened Basics
  import opened CommitDomain
  import opened CommitDecision
  import opened InventoryStore

  function Stock(pos: Pos, s: Id): int {
    if s in pos.items then pos.items[s].stock else 0
  }

  /** The net quantity the movements record for one stock item. */
  function Moved(movements: seq<Movement>, s: Id): int {
    if movements == [] then 0
    else Moved(movements[..|movements| - 1], s)
         + (if movements[|movements| - 1].itemId == s then movements[|movements| - 1].quantity else 0)
  }

  lemma {:induction false} MovedConcat(xs: seq<Movement>, ys: seq<Movement>, s: Id)
    ensures Moved(xs + ys, s) == Moved(xs, s) + Moved(ys, s)
  {
    if ys == [] {
      assert xs + ys == xs;
    } else {
      assert (xs + ys)[..|xs + ys| - 1] == xs + ys[..|ys| - 1];
      MovedConcat(xs, ys[..|ys| - 1], s);
    }
  }

  lemma {:induction false} MovedByDistinct(movements: seq<Movement>, s: Id, q: int)
    requires forall i, j :: 0 <= i < j < |movements| ==> movements[i].itemId != movements[j].itemId
    requires forall m :: m in movements && m.itemId == s ==> m.quantity == q
    ensures Moved(movements, s) == if exists m :: m in movements && m.itemId == s then q else 0
  {
    if movements != [] {
      var rest, last := movements[..|movements| - 1], movements[|movements| - 1];
      MovedByDistinct(rest, s, q);
      assert movements == rest + [last];
    }
  }

  /** The sale movements of one command take exactly the summed demand out of every stock item. */
  lemma SalesMoveDemand(pos: Pos, command: CommitCommand, now: Instant, s: Id)
    ensures Moved(SaleMovements(pos, command, now), s) == 0 - Demand(pos, command.lines, s)
  {
    var wanted := DemandIds(pos, command.lines);
    var ids, sales := Sorted(wanted), SaleMovements(pos, command, now);
    SortedIsIncreasing(wanted);
    MovedByDistinct(sales, s, 0 - Demand(pos, command.lines, s));
    if s in wanted {
      assert s in Elements(ids);
      var i :| 0 <= i < |ids| && ids[i] == s;
      assert sales[i] in sales && sales[i].itemId == s;
    } else {
      NoDemandOutside(pos, command.lines, s);
      assert forall i :: 0 <= i < |ids| ==> ids[i] in Elements(ids);
    }
  }

  lemma DeductionMoves(pos: Pos, movements: seq<Movement>, command: CommitCommand, now: Instant, s: Id)
    requires !Rejected(pos, command.lines)
    ensures Stock(Deducted(pos, command.lines), s) - Moved(movements + SaleMovements(pos, command, now), s)
         == Stock(pos, s) - Moved(movements, s)
  {
    CommitsExactlyWhenCovered(pos, command.lines);
    MovedConcat(movements, SaleMovements(pos, command, now), s);
    SalesMoveDemand(pos, command, now, s);
    if s !in DemandIds(pos, command.lines) {
      NoDemandOutside(pos, command.lines, s);
    }
  }

  /** Whatever a commit answers, every stock item changes by exactly what the new movements say. */
  lemma CommitConservesStock(db: Database, command: CommitCommand, fingerprint: string, eventId: Id, now: Instant)
    requires ValidCommand(command)
    ensures var (after, _) := Commit(db, command, fingerprint, eventId, now);
      forall s :: Stock(after.pos, s) - Moved(after.movements, s) == Stock(db.pos, s) - Moved(db.movements, s)
  {
    var (after, _) := Commit(db, command, fingerprint, eventId, now);
    if after.pos != db.pos || after.movements != db.movements {
      forall s
        ensures Stock(after.pos, s) - Moved(after.movements, s) == Stock(db.pos, s) - Moved(db.movements, s)
      {
        DeductionMoves(db.pos, db.movements, command, now, s);
      }
    }
  }

  /** A first commit that answers at all answers COMMITTED exactly when everything is covered; then each stock
      item drops by its demand and stays at or above zero, and otherwise no stock item changes. */
  lemma FirstCommitIsExact(db: Database, command: CommitCommand, fingerprint: string, eventId: Id, now: Instant)
    requires ValidCommand(command) && command.operationId !in db.receipts
    requires Commit(db, command, fingerprint, eventId, now).1.Replied?
    ensures var (after, outcome) := Commit(db, command, fingerprint, eventId, now);
      && (outcome.result.status.Committed? <==>
            && (forall line :: line in command.lines ==>
                  && OnSale(db.pos, line.productId)
                  && (NeedsExpansion(db.pos, line) ==> Recipe(db.pos, line.productId) != []))
            && (forall s :: s in DemandIds(db.pos, command.lines) ==>
                  Physical(db.pos, s) && Demand(db.pos, command.lines, s) <= db.pos.items[s].stock))
      && (outcome.result.status.Committed? ==>
            forall s :: Stock(after.pos, s) == Stock(db.pos, s) - Demand(db.pos, command.lines, s)
                        && (s in DemandIds(db.pos, command.lines) ==> Stock(after.pos, s) >= 0))
      && (outcome.result.status.ItemsUnavailable? ==> after.pos == db.pos && after.movements == db.movements)
      && outcome.result.unavailableItems == Report(db.pos, command.lines)
  {
    CommitsExactlyWhenCovered(db.pos, command.lines);
    forall s
      ensures s !in DemandIds(db.pos, command.lines) ==> Demand(db.pos, command.lines, s) == 0
    {
      if s !in DemandIds(db.pos, command.lines) {
        NoDemandOutside(db.pos, command.lines, s);
      }
    }
  }

  /** A result the store writes passes both services' validation. */
  lemma DecisionIsAcceptable(pos: Pos, command: CommitCommand, eventId: Id, now: Instant)
    requires ValidCommand(command) && eventId != NIL && now != 0
    ensures ValidResult(Decide(pos, command, eventId, now))
    ensures AcceptableReply(Decide(pos, command, eventId, now), command)
  {
    var items := Report(pos, command.lines);
    ReportIsValid(pos, command.lines, items);
    forall item | item in items
      ensures item.orderLineId != NIL && item.productId != NIL && item.requestedQuantity >= 1
    {
      assert GoodLine(Line(item.orderLineId, item.productId, item.requestedQuantity));
    }
  }

  /** Once an operation has been answered, every later call that presents the same fingerprint gets the same
      result, a call with another fingerprint is refused, and neither changes anything. */
  lemma AnsweredOperationReplays(
    db: Database, command: CommitCommand, fingerprint: string, eventId: Id, now: Instant,
    again: CommitCommand, fingerprint': string, eventId': Id, now': Instant)
    requires ValidCommand(command) && ValidCommand(again) && again.operationId == command.operationId
    requires eventId != NIL && now != 0
    requires Commit(db, command, fingerprint, eventId, now).1.Replied?
    ensures var (after, outcome) := Commit(db, command, fingerprint, eventId, now);
      Commit(after, again, fingerprint', eventId', now') ==
        (after, if fingerprint' == fingerprint then outcome else OperationConflict)
  {
    if command.operationId !in db.receipts {
      DecisionIsAcceptable(db.pos, command, eventId, now);
    }
  }

  /** Two valid commands with the same set of lines have the same bag of lines. */
  lemma SameLinesSameBag(lines: seq<Line>, shuffled: seq<Line>)
    requires DistinctLineIds(lines) && DistinctLineIds(shuffled)
    requires forall line :: line in lines <==> line in shuffled
    ensures multiset(lines) == multiset(shuffled)
  {
    assert NoRepeats(lines) && NoRepeats(shuffled);
    SameElementsSameBag(lines, shuffled);
  }

  lemma EffectsIgnoreOrder(pos: Pos, command: CommitCommand, shuffled: seq<Line>, now: Instant)
    requires multiset(command.lines) == multiset(shuffled)
    ensures Deducted(pos, shuffled) == Deducted(pos, command.lines)
    ensures SaleMovements(pos, command.(lines := shuffled), now) == SaleMovements(pos, command, now)
  {
    DemandIgnoresOrder(pos, command.lines, shuffled);
    var wanted := DemandIds(pos, command.lines);
    assert DeductedOn(pos, shuffled, wanted) == DeductedOn(pos, command.lines, wanted);
    assert forall s :: SaleOf(pos, command.(lines := shuffled), s, now) == SaleOf(pos, command, s, now);
  }

  lemma DecideIgnoresOrder(pos: Pos, command: CommitCommand, shuffled: seq<Line>, eventId: Id, now: Instant)
    requires ValidCommand(command) && ValidLines(shuffled)
    requires multiset(command.lines) == multiset(shuffled)
    ensures Decide(pos, command.(lines := shuffled), eventId, now) == Decide(pos, command, eventId, now)
    ensures Overflows(pos, shuffled) <==> Overflows(pos, command.lines)
  {
    var lines := command.lines;
    DecisionIgnoresOrder(pos, lines, shuffled, Report(pos, lines));
    ReportIsUnique(pos, shuffled, Report(pos, lines), Report(pos, shuffled));
  }

  /** The whole transaction, answer and tables, depends only on the set of lines. */
  lemma CommitIgnoresLineOrder(
    db: Database, command: CommitCommand, shuffled: seq<Line>, fingerprint: string, eventId: Id, now: Instant)
    requires ValidCommand(command) && ValidLines(shuffled)
    requires forall line :: line in command.lines <==> line in shuffled
    ensures Commit(db, command.(lines := shuffled), fingerprint, eventId, now)
         == Commit(db, command, fingerprint, eventId, now)
  {
    SameLinesSameBag(command.lines, shuffled);
    DecideIgnoresOrder(db.pos, command, shuffled, eventId, now);
    EffectsIgnoreOrder(db.pos, command, shuffled, now);
  }
}
