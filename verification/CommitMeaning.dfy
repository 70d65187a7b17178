/** What a commit does, said in the columns of the POS tables. Nothing here shares a definition with the loops: what a
    line takes is characterised by least covers, and verdict, stock, sales and report are stated from that. */
module CommitMeaning {
  import opened Basics
  import opened CommitDomain
  import opened CommitDecision
  import opened InventoryStore
  import opened CommitTheorems

  // ----- What a line takes -----

  /** `n` whole pieces cover `thousandths` of a piece, and one less does not. */
  predicate LeastCover(n: nat, thousandths: int) {
    thousandths <= 1000 * n < thousandths + 1000
  }

  /** Every component row is rounded up to the least whole number that covers it. */
  lemma RoundingIsLeastCover(row: Component, quantity: nat, n: nat)
    ensures LeastCover(n, row.thousandths * quantity) <==> n == CeilDemand(row, quantity)
    ensures row.thousandths * quantity <= 1000 * n <==> CeilDemand(row, quantity) <= n
  {
    assert LeastCover(CeilDemand(row, quantity), row.thousandths * quantity);
  }

  function ComponentsOf(pos: Pos, id: Id): seq<Component> {
    if id in pos.recipes then pos.recipes[id] else []
  }

  /** What the rows for `s` take together when row `i` takes `shares[i]`. */
  function SharesOf(rows: seq<Component>, shares: seq<nat>, s: Id): nat
    requires |rows| == |shares|
  {
    if rows == [] then 0
    else
      var n := |rows| - 1;
      SharesOf(rows[..n], shares[..n], s) + (if rows[n].componentId == s then shares[n] else 0)
  }

  ghost predicate Shares(rows: seq<Component>, quantity: int, shares: seq<nat>) {
    |shares| == |rows| && forall i :: 0 <= i < |rows| ==> LeastCover(shares[i], rows[i].thousandths * quantity)
  }

  ghost predicate RowsTake(rows: seq<Component>, quantity: int, s: Id, n: nat) {
    exists shares :: Shares(rows, quantity, shares) && n == SharesOf(rows, shares, s)
  }

  /** The line takes `n` of `s`: nothing if its product is missing, inactive or not tracked; its own quantity of its own
      product; or for each component row of a composite the least whole number that covers the ordered quantity. */
  ghost predicate Takes(pos: Pos, line: Line, s: Id, n: nat) {
    var id := line.productId;
    if id !in pos.items || !pos.items[id].active || !pos.items[id].tracksStock then n == 0
    else if pos.items[id].composite then RowsTake(ComponentsOf(pos, id), line.quantity, s, n)
    else n == if id == s then line.quantity else 0
  }

  lemma {:induction false} RowsTakeTheirSum(rows: seq<Component>, line: Line, s: Id, n: nat)
    requires line.quantity >= 0
    ensures RowsTake(rows, line.quantity, s, n) <==> n == SumOf(rows, RowQuantity(line, s))
  {
    var exact := seq(|rows|, i requires 0 <= i < |rows| => CeilDemand(rows[i], line.quantity));
    forall i | 0 <= i < |rows|
      ensures LeastCover(exact[i], rows[i].thousandths * line.quantity)
    {
      RoundingIsLeastCover(rows[i], line.quantity, exact[i]);
    }
    assert Shares(rows, line.quantity, exact);
    ExactSharesAddUp(rows, line, s, exact);
    forall shares | Shares(rows, line.quantity, shares)
      ensures shares == exact
    {
      SharesAreExact(rows, line.quantity, shares);
    }
  }

  lemma SharesAreExact(rows: seq<Component>, quantity: nat, shares: seq<nat>)
    requires Shares(rows, quantity, shares)
    ensures shares == seq(|rows|, i requires 0 <= i < |rows| => CeilDemand(rows[i], quantity))
  {
    forall i | 0 <= i < |rows|
      ensures shares[i] == CeilDemand(rows[i], quantity)
    {
      RoundingIsLeastCover(rows[i], quantity, shares[i]);
    }
  }

  lemma {:induction false} ExactSharesAddUp(rows: seq<Component>, line: Line, s: Id, exact: seq<nat>)
    requires line.quantity >= 0 && |exact| == |rows|
    requires forall i :: 0 <= i < |rows| ==> exact[i] == CeilDemand(rows[i], line.quantity)
    ensures SharesOf(rows, exact, s) == SumOf(rows, RowQuantity(line, s))
  {
    if rows != [] {
      ExactSharesAddUp(rows[..|rows| - 1], line, s, exact[..|rows| - 1]);
    }
  }

  lemma {:induction false} NothingFromOtherRows(rows: seq<Component>, line: Line, s: Id)
    requires forall row :: row in rows ==> row.componentId != s
    ensures SumOf(rows, RowQuantity(line, s)) == 0
  {
    if rows != [] {
      NothingFromOtherRows(rows[..|rows| - 1], line, s);
    }
  }

  /** What the decision counts for a line is exactly what the line takes. */
  lemma LineTakes(pos: Pos, line: Line, s: Id, n: nat)
    requires line.quantity >= 0
    ensures Takes(pos, line, s, n) <==> n == LineQuantity(pos, line, s)
  {
    var rows := ComponentsOf(pos, line.productId);
    RowsTakeTheirSum(rows, line, s, n);
    if forall row :: row in rows ==> row.componentId != s {
      NothingFromOtherRows(rows, line, s);
    }
  }

  // ----- What an order takes -----

  function Total(ns: seq<nat>): nat {
    if ns == [] then 0 else Total(ns[..|ns| - 1]) + ns[|ns| - 1]
  }

  /** `takes` says, line by line, what the order takes of `s`. */
  ghost predicate OrderTakes(pos: Pos, lines: seq<Line>, s: Id, takes: seq<nat>) {
    |takes| == |lines| && forall i :: 0 <= i < |lines| ==> Takes(pos, lines[i], s, takes[i])
  }

  lemma {:induction false} DemandIsTotal(pos: Pos, lines: seq<Line>, s: Id, takes: seq<nat>)
    requires forall line :: line in lines ==> line.quantity >= 0
    requires OrderTakes(pos, lines, s, takes)
    ensures Demand(pos, lines, s) == Total(takes)
  {
    if lines != [] {
      var n := |lines| - 1;
      forall line | line in lines[..n]
        ensures line.quantity >= 0
      {
        assert line in lines;
      }
      DemandIsTotal(pos, lines[..n], s, takes[..n]);
      LineTakes(pos, lines[n], s, takes[n]);
      DemandAppend(pos, lines[..n], lines[n], s);
      assert lines == lines[..n] + [lines[n]];
    }
  }

  /** The item is taken from at all, if only nothing of it. */
  ghost predicate DrawnFrom(pos: Pos, line: Line, s: Id) {
    var id := line.productId;
    && id in pos.items && pos.items[id].active && pos.items[id].tracksStock
    && if pos.items[id].composite then exists row :: row in ComponentsOf(pos, id) && row.componentId == s else id == s
  }

  lemma DrawnFromIsStockItem(pos: Pos, line: Line, s: Id)
    ensures DrawnFrom(pos, line, s) <==> s in StockItems(pos, line)
  {
  }

  ghost predicate SomeLineDraws(pos: Pos, lines: seq<Line>, s: Id) {
    exists line :: line in lines && DrawnFrom(pos, line, s)
  }

  lemma SomeLineDrawsIsDemanded(pos: Pos, lines: seq<Line>, s: Id)
    ensures SomeLineDraws(pos, lines, s) <==> s in DemandIds(pos, lines)
  {
    if SomeLineDraws(pos, lines, s) {
      var line :| line in lines && DrawnFrom(pos, line, s);
      DrawnFromIsStockItem(pos, line, s);
    }
    if s in DemandIds(pos, lines) {
      var line :| line in lines && s in StockItems(pos, line);
      DrawnFromIsStockItem(pos, line, s);
    }
  }

  // ----- The verdict -----

  /** The item can give `n`: active, tracked, no composite itself, and with that much in stock. */
  predicate CanGive(pos: Pos, s: Id, n: nat) {
    && s in pos.items && pos.items[s].active && pos.items[s].tracksStock && !pos.items[s].composite
    && n <= pos.items[s].stock
  }

  /** The product is there and active, and if it is a tracked composite it has components. */
  predicate CanBeOrdered(pos: Pos, id: Id) {
    && id in pos.items && pos.items[id].active
    && (pos.items[id].tracksStock && pos.items[id].composite ==> ComponentsOf(pos, id) != [])
  }

  ghost predicate AllTaken(pos: Pos, lines: seq<Line>, takes: Id -> seq<nat>) {
    forall s :: OrderTakes(pos, lines, s, takes(s))
  }

  ghost function ExactTakes(pos: Pos, lines: seq<Line>, s: Id): seq<nat> {
    seq(|lines|, i requires 0 <= i < |lines| => LineQuantity(pos, lines[i], s))
  }

  /** Every order takes something definite. */
  lemma SomethingIsTaken(pos: Pos, lines: seq<Line>)
    requires forall line :: line in lines ==> line.quantity >= 0
    ensures exists takes :: AllTaken(pos, lines, takes)
  {
    var takes := (s: Id) => ExactTakes(pos, lines, s);
    forall s
      ensures OrderTakes(pos, lines, s, takes(s))
    {
      forall i | 0 <= i < |lines|
        ensures Takes(pos, lines[i], s, takes(s)[i])
      {
        LineTakes(pos, lines[i], s, takes(s)[i]);
      }
    }
    assert AllTaken(pos, lines, takes);
  }

  /** The product cannot be ordered, or some item the line draws from cannot give all that the order takes of it. */
  ghost predicate Short(pos: Pos, line: Line, takes: Id -> seq<nat>) {
    !CanBeOrdered(pos, line.productId) || exists s :: DrawnFrom(pos, line, s) && !CanGive(pos, s, Total(takes(s)))
  }

  lemma LineIsAvailable(pos: Pos, lines: seq<Line>, takes: Id -> seq<nat>, line: Line)
    requires (forall l :: l in lines ==> l.quantity >= 0) && AllTaken(pos, lines, takes)
    ensures LineUnavailable(pos, lines, line) <==> Short(pos, line, takes)
  {
    forall s
      ensures DrawnFrom(pos, line, s) && CanGive(pos, s, Total(takes(s))) <==>
        s in StockItems(pos, line) && Covered(pos, lines, s)
      ensures DrawnFrom(pos, line, s) <==> s in StockItems(pos, line)
    {
      DrawnFromIsStockItem(pos, line, s);
      DemandIsTotal(pos, lines, s, takes(s));
    }
  }

  /** A first commit is COMMITTED if and only if every product can be ordered and every item that is drawn from can give
      all that the order takes of it. */
  lemma CommitsExactlyWhatCanBeTaken(
    db: Database, command: CommitCommand, fingerprint: string, eventId: Id, now: Instant, takes: Id -> seq<nat>)
    requires ValidCommand(command) && command.operationId !in db.receipts
    requires Commit(db, command, fingerprint, eventId, now).1.Replied?
    requires AllTaken(db.pos, command.lines, takes)
    ensures Commit(db, command, fingerprint, eventId, now).1.result.status.Committed? <==>
      forall line :: line in command.lines ==> !Short(db.pos, line, takes)
  {
    RejectedWhenShort(db.pos, command.lines, takes);
  }

  lemma RejectedWhenShort(pos: Pos, lines: seq<Line>, takes: Id -> seq<nat>)
    requires (forall line :: line in lines ==> line.quantity >= 0) && AllTaken(pos, lines, takes)
    ensures Rejected(pos, lines) <==> exists line :: line in lines && Short(pos, line, takes)
  {
    forall line
      ensures LineUnavailable(pos, lines, line) <==> Short(pos, line, takes)
    {
      LineIsAvailable(pos, lines, takes, line);
    }
  }

  // ----- Stock, sales and receipt -----

  lemma TakenIsDeducted(pos: Pos, lines: seq<Line>, s: Id, takes: seq<nat>)
    requires (forall line :: line in lines ==> line.quantity >= 0) && OrderTakes(pos, lines, s, takes)
    ensures s in Deducted(pos, lines).items <==> s in pos.items
    ensures s in pos.items ==>
      Deducted(pos, lines).items[s] == pos.items[s].(stock := pos.items[s].stock - Total(takes))
  {
    DemandIsTotal(pos, lines, s, takes);
    if s !in DemandIds(pos, lines) {
      NoDemandOutside(pos, lines, s);
    }
  }

  /** A first commit that is COMMITTED lowers each item's stock by exactly what the order takes of it and changes no
      other column; one that is not leaves items and movements as they were. Either way it leaves its receipt, and the
      answer carries the drawn event identifier, the clock, and the request's operation and order. */
  lemma StockDropsByWhatIsTaken(
    db: Database, command: CommitCommand, fingerprint: string, eventId: Id, now: Instant, s: Id, takes: seq<nat>)
    requires ValidCommand(command) && command.operationId !in db.receipts
    requires Commit(db, command, fingerprint, eventId, now).1.Replied?
    requires OrderTakes(db.pos, command.lines, s, takes)
    ensures var (after, outcome) := Commit(db, command, fingerprint, eventId, now); var result := outcome.result;
      && after.pos.recipes == db.pos.recipes && (s in after.pos.items <==> s in db.pos.items)
      && (s in db.pos.items ==>
            after.pos.items[s] ==
              db.pos.items[s].(stock := db.pos.items[s].stock - (if result.status.Committed? then Total(takes) else 0)))
      && (!result.status.Committed? ==> after.movements == db.movements)
      && after.receipts ==
           db.receipts[command.operationId := Receipt(command.eventId, command.orderId, fingerprint, result)]
      && result.schemaVersion == "1.0" && result.eventId == eventId && result.occurredAt == now
      && result.operationId == command.operationId && result.orderId == command.orderId
  {
    TakenIsDeducted(db.pos, command.lines, s, takes);
  }

  /** The sales of one order: one per item drawn from, in order, each of what was taken. */
  ghost predicate SalesAre(
    pos: Pos, command: CommitCommand, now: Instant, sales: seq<Movement>, takes: Id -> seq<nat>)
  {
    && (forall s :: SomeLineDraws(pos, command.lines, s) <==> exists m :: m in sales && m.itemId == s)
    && (forall i, j :: 0 <= i < j < |sales| ==> sales[i].itemId < sales[j].itemId)
    && (forall m :: m in sales ==>
          && m.quantity == 0 - Total(takes(m.itemId))
          && m.orderId == command.orderId && m.operationId == command.operationId && m.createdAt == now)
  }

  /** A COMMITTED first commit records one sale for each item drawn from, of exactly what was taken, in the order of the
      items, under the request's order and operation and at the time of the result. */
  lemma SalesAreRecorded(
    db: Database, command: CommitCommand, fingerprint: string, eventId: Id, now: Instant, takes: Id -> seq<nat>)
    requires ValidCommand(command) && command.operationId !in db.receipts
    requires Commit(db, command, fingerprint, eventId, now).1.Replied?
    requires Commit(db, command, fingerprint, eventId, now).1.result.status.Committed?
    requires AllTaken(db.pos, command.lines, takes)
    ensures var after := Commit(db, command, fingerprint, eventId, now).0;
      && |db.movements| <= |after.movements| && after.movements[..|db.movements|] == db.movements
      && SalesAre(db.pos, command, now, after.movements[|db.movements|..], takes)
  {
    var sales := SaleMovements(db.pos, command, now);
    SalesOfTakes(db.pos, command, now, takes);
    assert (db.movements + sales)[..|db.movements|] == db.movements;
    assert (db.movements + sales)[|db.movements|..] == sales;
  }

  lemma SalesOfTakes(pos: Pos, command: CommitCommand, now: Instant, takes: Id -> seq<nat>)
    requires ValidCommand(command) && AllTaken(pos, command.lines, takes)
    ensures SalesAre(pos, command, now, SaleMovements(pos, command, now), takes)
  {
    var wanted, sales := DemandIds(pos, command.lines), SaleMovements(pos, command, now);
    SortedIsIncreasing(wanted);
    forall s
      ensures SomeLineDraws(pos, command.lines, s) <==> exists m :: m in sales && m.itemId == s
    {
      SomeLineDrawsIsDemanded(pos, command.lines, s);
      SoldOnce(pos, command, now, s);
    }
    forall m | m in sales
      ensures m.quantity == 0 - Total(takes(m.itemId))
      ensures m.orderId == command.orderId && m.operationId == command.operationId && m.createdAt == now
    {
      DemandIsTotal(pos, command.lines, m.itemId, takes(m.itemId));
    }
  }

  lemma SoldOnce(pos: Pos, command: CommitCommand, now: Instant, s: Id)
    ensures s in DemandIds(pos, command.lines) <==> exists m :: m in SaleMovements(pos, command, now) && m.itemId == s
  {
    var wanted, sales := DemandIds(pos, command.lines), SaleMovements(pos, command, now);
    var ids := Sorted(wanted);
    if s in wanted {
      SortedHas(wanted, s);
      var i :| 0 <= i < |ids| && ids[i] == s;
      assert sales[i] in sales && sales[i].itemId == s;
    }
    if m :| m in sales && m.itemId == s {
      var i :| 0 <= i < |sales| && sales[i] == m;
      assert ids[i] in ids;
      SortedHas(wanted, s);
    }
  }

  // ----- The report -----

  /** What the report says about a line: what is on the shelf for a simple item, and nothing for anything else. */
  predicate Reports(pos: Pos, line: Line, item: UnavailableItem) {
    var id := line.productId;
    && item.orderLineId == line.orderLineId && item.productId == id && item.requestedQuantity == line.quantity
    && item.availableQuantity ==
         if id in pos.items && pos.items[id].active && pos.items[id].tracksStock && !pos.items[id].composite
            && pos.items[id].stock > 0
         then pos.items[id].stock else 0
  }

  /** The short lines, each once, in the order of their identifiers, with the requested quantity and what is available. */
  ghost predicate ReportsShortLines(
    pos: Pos, lines: seq<Line>, takes: Id -> seq<nat>, items: seq<UnavailableItem>)
  {
    && (forall i, j :: 0 <= i < j < |items| ==> items[i].orderLineId < items[j].orderLineId)
    && (forall line :: line in lines && Short(pos, line, takes) ==> exists item :: item in items && Reports(pos, line, item))
    && (forall item :: item in items ==> exists line ::
          line in lines && Short(pos, line, takes) && Reports(pos, line, item))
  }

  /** A first commit reports exactly the short lines. */
  lemma ReportNamesTheShortLines(
    db: Database, command: CommitCommand, fingerprint: string, eventId: Id, now: Instant, takes: Id -> seq<nat>)
    requires ValidCommand(command) && command.operationId !in db.receipts
    requires Commit(db, command, fingerprint, eventId, now).1.Replied?
    requires AllTaken(db.pos, command.lines, takes)
    ensures ReportsShortLines(
      db.pos, command.lines, takes, Commit(db, command, fingerprint, eventId, now).1.result.unavailableItems)
  {
    assert forall line :: line in command.lines ==> GoodLine(line);
    AnswerHasTheReport(db, command, fingerprint, eventId, now);
    ReportIsOfShortLines(db.pos, command.lines, takes, Report(db.pos, command.lines));
  }

  lemma AnswerHasTheReport(db: Database, command: CommitCommand, fingerprint: string, eventId: Id, now: Instant)
    requires ValidCommand(command) && command.operationId !in db.receipts
    requires Commit(db, command, fingerprint, eventId, now).1.Replied?
    ensures Commit(db, command, fingerprint, eventId, now).1.result.unavailableItems == Report(db.pos, command.lines)
  {
  }

  lemma ReportIsOfShortLines(pos: Pos, lines: seq<Line>, takes: Id -> seq<nat>, items: seq<UnavailableItem>)
    requires (forall line :: line in lines ==> line.quantity >= 0) && AllTaken(pos, lines, takes)
    requires IsReport(pos, lines, items)
    ensures ReportsShortLines(pos, lines, takes, items)
  {
    forall line | line in lines && Short(pos, line, takes)
      ensures exists item :: item in items && Reports(pos, line, item)
    {
      LineIsAvailable(pos, lines, takes, line);
      ShortLinesReport(pos, lines, line, Entry(pos, line));
      assert Entry(pos, line) in items;
    }
    forall item | item in items
      ensures exists line :: line in lines && Short(pos, line, takes) && Reports(pos, line, item)
    {
      var line :| line in lines && LineUnavailable(pos, lines, line) && item == Entry(pos, line);
      LineIsAvailable(pos, lines, takes, line);
      ShortLinesReport(pos, lines, line, item);
    }
  }

  lemma ShortLinesReport(pos: Pos, lines: seq<Line>, line: Line, item: UnavailableItem)
    requires LineUnavailable(pos, lines, line)
    ensures Reports(pos, line, item) <==> item == Entry(pos, line)
  {
  }

  // ----- What the services accept from each other -----

  /** The adapter takes a command exactly if it is of schema 1.0, names its event, operation and order, says when it
      occurred, and has 1 to 100 lines with identifiers and quantities of 1 to 100, no line and no product twice. */
  lemma CommandIsTakenExactlyWhen(command: CommitCommand)
    ensures ValidCommand(command) <==>
      && command.schemaVersion == "1.0" && command.occurredAt > 0
      && command.eventId > 0 && command.operationId > 0 && command.orderId > 0
      && 0 < |command.lines| < 101
      && (forall i :: 0 <= i < |command.lines| ==>
            var line := command.lines[i]; line.orderLineId > 0 && line.productId > 0 && 0 < line.quantity < 101)
      && (forall i, j :: 0 <= i < |command.lines| && 0 <= j < |command.lines| && i != j ==>
            && command.lines[i].orderLineId != command.lines[j].orderLineId
            && command.lines[i].productId != command.lines[j].productId)
  {
    var lines := command.lines;
    assert (forall line :: line in lines ==> GoodLine(line)) <==> (forall i :: 0 <= i < |lines| ==> GoodLine(lines[i]));
  }

  /** The item is one of the requested lines, word for word. */
  ghost predicate IsRequested(item: UnavailableItem, lines: seq<Line>) {
    exists line :: line in lines && line.orderLineId == item.orderLineId && line.productId == item.productId
      && line.quantity == item.requestedQuantity
  }

  /** The ordering service takes a reply exactly if it answers the request's operation and order in schema 1.0, lists
      items exactly when it says that some are unavailable, and lists requested lines only, none twice, with nothing
      negative available. */
  lemma ReplyIsTakenExactlyWhen(reply: CommitResult, request: CommitCommand)
    ensures AcceptableReply(reply, request) <==>
      && reply.schemaVersion == "1.0" && reply.operationId == request.operationId && reply.orderId == request.orderId
      && (reply.status == Committed <==> reply.unavailableItems == [])
      && (forall item :: item in reply.unavailableItems ==>
            item.availableQuantity >= 0 && IsRequested(item, request.lines))
      && (forall i, j :: 0 <= i < j < |reply.unavailableItems| ==>
            reply.unavailableItems[i].orderLineId != reply.unavailableItems[j].orderLineId)
  {
    forall item
      ensures IsRequested(item, request.lines) <==>
        Line(item.orderLineId, item.productId, item.requestedQuantity) in request.lines
    {
    }
  }

  /** A stored result is replayed exactly if it has its identifiers and time and lists items exactly when it says that
      some are unavailable, each with its identifiers and a positive quantity, none twice. */
  lemma ResultIsReplayedExactlyWhen(db: Database, command: CommitCommand, fingerprint: string, eventId: Id, now: Instant)
    requires ValidCommand(command) && command.operationId in db.receipts
    requires db.receipts[command.operationId].fingerprint == fingerprint
    ensures var result := db.receipts[command.operationId].result;
      Commit(db, command, fingerprint, eventId, now) == (db,
        if && result.schemaVersion == "1.0" && result.occurredAt > 0
           && result.eventId > 0 && result.operationId > 0 && result.orderId > 0
           && (result.status == Committed <==> result.unavailableItems == [])
           && (forall item :: item in result.unavailableItems ==>
                 item.orderLineId > 0 && item.productId > 0 && item.requestedQuantity > 0 && item.availableQuantity >= 0)
           && (forall i, j :: 0 <= i < j < |result.unavailableItems| ==>
                 result.unavailableItems[i].orderLineId != result.unavailableItems[j].orderLineId)
        then Replied(result) else StoreUnavailable)
  {
  }

  // ----- Refusals -----

  /** A first call gets no answer exactly when some component row of an active tracked composite needs more than a 32-bit
      column holds, or, failing that, when some receipt carries one of its two event identifiers. Then nothing has
      changed. */
  lemma RefusedExactlyWhen(db: Database, command: CommitCommand, fingerprint: string, eventId: Id, now: Instant)
    requires ValidCommand(command) && command.operationId !in db.receipts
    ensures var (after, outcome) := Commit(db, command, fingerprint, eventId, now);
      var tooMany := exists line, row ::
        && line in command.lines && line.productId in db.pos.items && db.pos.items[line.productId].active
        && db.pos.items[line.productId].tracksStock && db.pos.items[line.productId].composite
        && row in ComponentsOf(db.pos, line.productId) && row.thousandths * line.quantity > 1000 * 0x7fff_ffff;
      var taken := exists op ::
        && op in db.receipts
        && (db.receipts[op].requestEventId == command.eventId || db.receipts[op].result.eventId == eventId);
      && (outcome.StoreUnavailable? <==> tooMany)
      && (outcome.OperationConflict? <==> !tooMany && taken)
      && (!outcome.Replied? ==> after == db)
  {
    forall line, row | line in command.lines
      ensures line.quantity >= 0
      ensures CeilDemand(row, line.quantity) > MAX_INT32 <==> row.thousandths * line.quantity > 1000 * 0x7fff_ffff
    {
      assert GoodLine(line);
      RoundingIsLeastCover(row, line.quantity, 0x7fff_ffff);
    }
  }

  ghost predicate EventsDistinct(receipts: map<Id, Receipt>) {
    forall a, b :: a in receipts && b in receipts && a != b ==>
      receipts[a].requestEventId != receipts[b].requestEventId && receipts[a].result.eventId != receipts[b].result.eventId
  }

  /** No sequence of commits, whoever sends them, makes two receipts share an event identifier. */
  lemma CommitsKeepEventsDistinct(db: Database, command: CommitCommand, fingerprint: string, eventId: Id, now: Instant)
    requires ValidCommand(command) && EventsDistinct(db.receipts)
    ensures EventsDistinct(Commit(db, command, fingerprint, eventId, now).0.receipts)
  {
    if command.operationId !in db.receipts {
      RefusedExactlyWhen(db, command, fingerprint, eventId, now);
    }
  }
}
