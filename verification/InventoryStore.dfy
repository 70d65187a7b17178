/** The adapter's store: POS items, component rows, stock movements and operation receipts, and the commit
    transaction that decides and deducts. */
module InventoryStore {
  import opened Basics
  import opened CommitDomain
  import opened CommitDecision

  /** A sale movement; its quantity is negative. */
  datatype Movement = Movement(itemId: Id, quantity: int, orderId: Id, operationId: Id, createdAt: Instant)

  datatype Receipt = Receipt(requestEventId: Id, orderId: Id, fingerprint: string, result: CommitResult)

  datatype Database = Database(pos: Pos, movements: seq<Movement>, receipts: map<Id, Receipt>)

  datatype Outcome = Replied(result: CommitResult) | OperationConflict | StoreUnavailable

  // ----- Specification of one commit transaction -----

  ghost function DeductedOn(pos: Pos, lines: seq<Line>, ids: set<Id>): map<Id, Item> {
    map s | s in pos.items ::
      if s in ids then pos.items[s].(stock := pos.items[s].stock - Demand(pos, lines, s)) else pos.items[s]
  }

  ghost function Deducted(pos: Pos, lines: seq<Line>): Pos {
    pos.(items := DeductedOn(pos, lines, DemandIds(pos, lines)))
  }

  ghost function SaleOf(pos: Pos, command: CommitCommand, s: Id, now: Instant): Movement {
    Movement(s, 0 - Demand(pos, command.lines, s), command.orderId, command.operationId, now)
  }

  ghost function SaleMovements(pos: Pos, command: CommitCommand, now: Instant): seq<Movement> {
    var ids := Sorted(DemandIds(pos, command.lines));
    seq(|ids|, i requires 0 <= i < |ids| => SaleOf(pos, command, ids[i], now))
  }

  ghost function Decide(pos: Pos, command: CommitCommand, eventId: Id, now: Instant): CommitResult
    requires ValidCommand(command)
  {
    CommitResult(SCHEMA_VERSION, eventId, command.operationId, command.orderId,
                 if Rejected(pos, command.lines) then ItemsUnavailable else Committed, now,
                 Report(pos, command.lines))
  }

  /** Some other receipt already carries one of the two event identifiers (both columns are unique). */
  ghost predicate EventTaken(receipts: map<Id, Receipt>, requestEventId: Id, resultEventId: Id) {
    exists op :: op in receipts
      && (receipts[op].requestEventId == requestEventId || receipts[op].result.eventId == resultEventId)
  }

  ghost function Commit(
    db: Database, command: CommitCommand, fingerprint: string, eventId: Id, now: Instant): (Database, Outcome)
    requires ValidCommand(command)
  {
    if command.operationId in db.receipts then
      if db.receipts[command.operationId].fingerprint != fingerprint then (db, OperationConflict)
      else if !ValidResult(db.receipts[command.operationId].result) then (db, StoreUnavailable)
      else (db, Replied(db.receipts[command.operationId].result))
    else if Overflows(db.pos, command.lines) then (db, StoreUnavailable)
    else if EventTaken(db.receipts, command.eventId, eventId) then (db, OperationConflict)
    else
      var result := Decide(db.pos, command, eventId, now);
      var receipts := db.receipts[command.operationId := Receipt(command.eventId, command.orderId, fingerprint, result)];
      if result.status.Committed? then
        (Database(Deducted(db.pos, command.lines), db.movements + SaleMovements(db.pos, command, now), receipts),
         Replied(result))
      else (db.(receipts := receipts), Replied(result))
  }

  // ----- The transaction as the store runs it -----

  datatype StockDemand = StockDemand(quantity: nat, dependentLines: set<Id>)

  /** The demand of some lines for a stock item, and the same with one more line that draws on it. */
  ghost function DemandOf(pos: Pos, lines: seq<Line>, s: Id): StockDemand {
    StockDemand(Demand(pos, lines, s), DependentLines(pos, lines, s))
  }

  ghost function WithLine(pos: Pos, line: Line, s: Id, demand: StockDemand): StockDemand {
    StockDemand(demand.quantity + LineQuantity(pos, line, s), demand.dependentLines + {line.orderLineId})
  }

  /** The demand table after a set of lines, and after part of one more line's components. */
  ghost predicate Tallied(pos: Pos, lines: seq<Line>, extra: Option<Line>, done: set<Id>, demands: map<Id, StockDemand>) {
    && demands.Keys == DemandIds(pos, lines) + done
    && (extra.None? ==> done == {})
    && forall s :: s in demands ==>
         demands[s] == if s in done then WithLine(pos, extra.value, s, DemandOf(pos, lines, s)) else DemandOf(pos, lines, s)
  }

  ghost function DependentLines(pos: Pos, lines: seq<Line>, s: Id): set<Id> {
    set line | line in lines && s in StockItems(pos, line) :: line.orderLineId
  }

  /** `addDemand`. */
  function AddDemand(demands: map<Id, StockDemand>, s: Id, lineId: Id, quantity: nat): map<Id, StockDemand> {
    var value := if s in demands then demands[s] else StockDemand(0, {});
    demands[s := StockDemand(value.quantity + quantity, value.dependentLines + {lineId})]
  }

  lemma DemandAppend(pos: Pos, lines: seq<Line>, line: Line, s: Id)
    ensures Demand(pos, lines + [line], s) == Demand(pos, lines, s) + LineQuantity(pos, line, s)
  {
  }

  lemma NoDemandOutside(pos: Pos, lines: seq<Line>, s: Id)
    requires s !in DemandIds(pos, lines)
    ensures Demand(pos, lines, s) == 0 && DependentLines(pos, lines, s) == {}
  {
    if lines != [] {
      var rest, last := lines[..|lines| - 1], lines[|lines| - 1];
      assert lines == rest + [last];
      NoDemandOutside(pos, rest, s);
      DemandAppend(pos, rest, last, s);
      assert last in lines;
    }
  }

  lemma AddDemandTallies(pos: Pos, lines: seq<Line>, line: Line, done: set<Id>, demands: map<Id, StockDemand>, s: Id)
    requires Tallied(pos, lines, Some(line), done, demands)
    requires s !in done
    ensures Tallied(pos, lines, Some(line), done + {s}, AddDemand(demands, s, line.orderLineId, LineQuantity(pos, line, s)))
  {
    DemandSoFar(pos, lines, line, done, demands, s);
    TallyOneMore(pos, lines, line, done, demands, s);
  }

  lemma DemandSoFar(pos: Pos, lines: seq<Line>, line: Line, done: set<Id>, demands: map<Id, StockDemand>, s: Id)
    requires Tallied(pos, lines, Some(line), done, demands) && s !in done
    ensures DemandOf(pos, lines, s) == if s in demands then demands[s] else StockDemand(0, {})
  {
    if s !in demands {
      NoDemandOutside(pos, lines, s);
    }
  }

  lemma TallyOneMore(pos: Pos, lines: seq<Line>, line: Line, done: set<Id>, demands: map<Id, StockDemand>, s: Id)
    requires Tallied(pos, lines, Some(line), done, demands)
    ensures Tallied(
      pos, lines, Some(line), done + {s}, demands[s := WithLine(pos, line, s, DemandOf(pos, lines, s))])
  {
  }

  lemma DemandOfAppend(pos: Pos, lines: seq<Line>, line: Line, s: Id)
    ensures DemandOf(pos, lines + [line], s) ==
      if s in StockItems(pos, line) then WithLine(pos, line, s, DemandOf(pos, lines, s)) else DemandOf(pos, lines, s)
  {
  }

  lemma DemandIdsAppend(pos: Pos, lines: seq<Line>, line: Line)
    ensures DemandIds(pos, lines + [line]) == DemandIds(pos, lines) + StockItems(pos, line)
  {
  }

  lemma TallyLine(pos: Pos, lines: seq<Line>, line: Line, demands: map<Id, StockDemand>)
    requires Tallied(pos, lines, Some(line), StockItems(pos, line), demands)
    ensures Tallied(pos, lines + [line], None, {}, demands)
  {
    DemandIdsAppend(pos, lines, line);
    forall s | s in demands
      ensures demands[s] == DemandOf(pos, lines + [line], s)
    {
      DemandOfAppend(pos, lines, line, s);
    }
  }

  /** The component table after some of the recipe's rows. */
  ghost predicate Rounded(line: Line, rows: seq<Component>, components: map<Id, nat>) {
    && components.Keys == (set row | row in rows :: row.componentId)
    && (forall s :: s in components ==> components[s] == SumOf(rows, RowQuantity(line, s)))
    && (forall s :: s !in components ==> SumOf(rows, RowQuantity(line, s)) == 0)
  }

  lemma RoundOneMore(line: Line, rows: seq<Component>, row: Component, components: map<Id, nat>)
    requires Rounded(line, rows, components) && line.quantity >= 0
    ensures var before := if row.componentId in components then components[row.componentId] else 0;
      Rounded(line, rows + [row], components[row.componentId := before + CeilDemand(row, line.quantity)])
  {
  }

  ghost predicate AllFit(line: Line, rows: seq<Component>)
    requires line.quantity >= 0
  {
    forall row :: row in rows ==> CeilDemand(row, line.quantity) <= MAX_INT32
  }

  /** `loadCompositeDemand`: rounds every component row up and adds the rows of one component together. */
  method LoadCompositeDemand(pos: Pos, line: Line) returns (overflow: bool, components: map<Id, nat>)
    requires NeedsExpansion(pos, line) && line.quantity >= 0
    ensures overflow <==> exists row :: row in Recipe(pos, line.productId) && CeilDemand(row, line.quantity) > MAX_INT32
    ensures !overflow ==> components.Keys == StockItems(pos, line)
    ensures !overflow ==> forall s :: s in components ==> components[s] == LineQuantity(pos, line, s)
  {
    var rows := Recipe(pos, line.productId);
    overflow, components := false, map[];
    for i := 0 to |rows|
      invariant AllFit(line, rows[..i])
      invariant Rounded(line, rows[..i], components)
    {
      var row := rows[i];
      var quantity := CeilDemand(row, line.quantity);
      if quantity > MAX_INT32 {
        assert row in rows;
        overflow := true;
        return;
      }
      RoundOneMore(line, rows[..i], row, components);
      assert rows[..i + 1] == rows[..i] + [row];
      var before := if row.componentId in components then components[row.componentId] else 0;
      components := components[row.componentId := before + quantity];
    }
    assert rows[..|rows|] == rows;
    RoundedIsLine(pos, line, components);
  }

  lemma RoundedIsLine(pos: Pos, line: Line, components: map<Id, nat>)
    requires NeedsExpansion(pos, line) && Rounded(line, Recipe(pos, line.productId), components)
    ensures components.Keys == StockItems(pos, line)
    ensures forall s :: s in components ==> components[s] == LineQuantity(pos, line, s)
  {
  }

  ghost predicate NeedsOverflow(pos: Pos, line: Line) {
    && NeedsExpansion(pos, line)
    && line.quantity >= 0
    && exists row :: row in Recipe(pos, line.productId) && CeilDemand(row, line.quantity) > MAX_INT32
  }

  /** The entries for the lines that are unsellable or hang on one of the stock items in `short`. */
  ghost predicate Marked(pos: Pos, lines: seq<Line>, short: set<Id>, unavailable: map<Id, UnavailableItem>) {
    && (forall id :: id in unavailable ==> exists line :: line in lines && line.orderLineId == id)
    && (forall line :: line in lines ==>
          && (line.orderLineId in unavailable <==>
                Unsellable(pos, line) || exists s :: s in StockItems(pos, line) && s in short)
          && (line.orderLineId in unavailable ==> unavailable[line.orderLineId] == Entry(pos, line)))
  }

  lemma MarkLine(pos: Pos, lines: seq<Line>, line: Line, unavailable: map<Id, UnavailableItem>)
    requires DistinctLineIds(lines + [line]) && Marked(pos, lines, {}, unavailable)
    ensures Unsellable(pos, line) ==> Marked(pos, lines + [line], {}, unavailable[line.orderLineId := Entry(pos, line)])
    ensures !Unsellable(pos, line) ==> Marked(pos, lines + [line], {}, unavailable)
  {
    var longer := lines + [line];
    assert longer[|lines|] == line;
    forall l | l in lines
      ensures l.orderLineId != line.orderLineId
    {
      var j :| 0 <= j < |lines| && lines[j] == l;
      assert longer[j] == l;
    }
    assert forall l :: l in longer <==> l in lines || l == line;
  }

  /** The first loop of `commitOnce`: expands every line into stock demand. */
  method ExpandLines(pos: Pos, lines: seq<Line>)
    returns (overflow: bool, demands: map<Id, StockDemand>, unavailable: map<Id, UnavailableItem>, compositeLines: set<Id>)
    requires ValidLines(lines)
    ensures overflow <==> Overflows(pos, lines)
    ensures !overflow ==> Tallied(pos, lines, None, {}, demands)
    ensures !overflow ==> Marked(pos, lines, {}, unavailable)
    ensures !overflow ==> compositeLines == set line | line in lines && NeedsExpansion(pos, line) :: line.orderLineId
  {
    overflow, demands, unavailable, compositeLines := false, map[], map[], {};
    for i := 0 to |lines|
      invariant Tallied(pos, lines[..i], None, {}, demands)
      invariant Marked(pos, lines[..i], {}, unavailable)
      invariant compositeLines == set line | line in lines[..i] && NeedsExpansion(pos, line) :: line.orderLineId
      invariant forall j :: 0 <= j < i ==> !NeedsOverflow(pos, lines[j])
    {
      var line := lines[i];
      assert line in lines;
      assert lines[..i + 1] == lines[..i] + [line];
      MarkLine(pos, lines[..i], line, unavailable);
      var unsellable, composite;
      overflow, demands, unsellable, composite := ExpandLine(pos, lines[..i], line, demands);
      if overflow {
        return;
      }
      if unsellable {
        unavailable := unavailable[line.orderLineId := Entry(pos, line)];
      }
      if composite {
        compositeLines := compositeLines + {line.orderLineId};
      }
    }
    assert lines[..|lines|] == lines;
    NothingOverflows(pos, lines);
  }

  lemma RecipeIsDrawnOn(pos: Pos, line: Line)
    requires NeedsExpansion(pos, line)
    ensures StockItems(pos, line) == {} <==> Recipe(pos, line.productId) == []
  {
    if Recipe(pos, line.productId) != [] {
      assert Recipe(pos, line.productId)[0].componentId in StockItems(pos, line);
    }
  }

  /** One turn of that loop. */
  method ExpandLine(pos: Pos, ghost lines: seq<Line>, line: Line, before: map<Id, StockDemand>)
    returns (overflow: bool, demands: map<Id, StockDemand>, unsellable: bool, composite: bool)
    requires Tallied(pos, lines, None, {}, before) && GoodLine(line)
    ensures overflow <==> NeedsOverflow(pos, line)
    ensures !overflow ==> Tallied(pos, lines + [line], None, {}, demands)
    ensures !overflow ==> unsellable == Unsellable(pos, line) && composite == NeedsExpansion(pos, line)
  {
    overflow, demands, unsellable, composite := false, before, false, false;
    if !OnSale(pos, line.productId) {
      unsellable := true;
    } else if !pos.items[line.productId].tracksStock {
    } else if !pos.items[line.productId].composite {
      AddDemandTallies(pos, lines, line, {}, demands, line.productId);
      demands := AddDemand(demands, line.productId, line.orderLineId, line.quantity);
      assert {} + {line.productId} == StockItems(pos, line);
    } else {
      composite := true;
      var components;
      overflow, components := LoadCompositeDemand(pos, line);
      if overflow {
        return;
      }
      RecipeIsDrawnOn(pos, line);
      if components.Keys == {} {
        unsellable := true;
      } else {
        demands := AddComponents(pos, lines, line, components, demands);
      }
    }
    TallyLine(pos, lines, line, demands);
  }

  lemma NothingOverflows(pos: Pos, lines: seq<Line>)
    requires forall j :: 0 <= j < |lines| ==> !NeedsOverflow(pos, lines[j])
    ensures !Overflows(pos, lines)
  {
  }

  lemma AddOneComponent(
    pos: Pos, lines: seq<Line>, line: Line, all: set<Id>, todo: set<Id>, demands: map<Id, StockDemand>, s: Id, quantity: nat)
    requires todo <= all && s in todo && Tallied(pos, lines, Some(line), all - todo, demands)
    requires quantity == LineQuantity(pos, line, s)
    ensures Tallied(pos, lines, Some(line), all - (todo - {s}), AddDemand(demands, s, line.orderLineId, quantity))
  {
    AddDemandTallies(pos, lines, line, all - todo, demands, s);
    assert all - todo + {s} == all - (todo - {s});
  }

  /** Adds a line's components to the demand table, in whatever order the map yields them. */
  method AddComponents(pos: Pos, ghost lines: seq<Line>, line: Line, components: map<Id, nat>, before: map<Id, StockDemand>)
    returns (demands: map<Id, StockDemand>)
    requires Tallied(pos, lines, Some(line), {}, before)
    requires components.Keys == StockItems(pos, line)
    requires forall s :: s in components ==> components[s] == LineQuantity(pos, line, s)
    ensures Tallied(pos, lines, Some(line), StockItems(pos, line), demands)
  {
    demands := before;
    var todo := components.Keys;
    while todo != {}
      invariant todo <= components.Keys
      invariant Tallied(pos, lines, Some(line), components.Keys - todo, demands)
      decreases todo
    {
      var s :| s in todo;
      AddOneComponent(pos, lines, line, components.Keys, todo, demands, s, components[s]);
      demands := AddDemand(demands, s, line.orderLineId, components[s]);
      todo := todo - {s};
    }
    assert components.Keys - {} == components.Keys;
  }

  /** Marking the dependents of one more stock item that is not covered. */
  method MarkDependents(
    pos: Pos, lines: seq<Line>, linesById: map<Id, Line>, compositeLines: set<Id>, ghost short: set<Id>, s: Id,
    dependents: set<Id>, before: map<Id, UnavailableItem>)
    returns (unavailable: map<Id, UnavailableItem>)
    requires DistinctLineIds(lines) && Marked(pos, lines, short, before)
    requires forall line :: line in lines ==> line.orderLineId in linesById && linesById[line.orderLineId] == line
    requires compositeLines == set line | line in lines && NeedsExpansion(pos, line) :: line.orderLineId
    requires dependents == DependentLines(pos, lines, s)
    ensures Marked(pos, lines, short + {s}, unavailable)
  {
    var available := 0;
    if Physical(pos, s) && pos.items[s].stock > 0 {
      available := pos.items[s].stock;
    }
    unavailable := before;
    var done: set<Id>, todo := {}, dependents;
    while todo != {}
      invariant done + todo == dependents
      invariant forall id :: id in unavailable <==> id in before || id in done
      invariant forall line :: line in lines && line.orderLineId in unavailable ==>
        unavailable[line.orderLineId] == Entry(pos, line)
      decreases todo
    {
      var id :| id in todo;
      ghost var dependent :| dependent in lines && s in StockItems(pos, dependent) && dependent.orderLineId == id;
      var line := linesById[id];
      assert line == dependent;
      assert id in compositeLines <==> NeedsExpansion(pos, line) by {
        SameIdSameLine(lines, line);
      }
      var lineAvailable := available;
      if id in compositeLines {
        lineAvailable := 0;
      }
      unavailable := unavailable[id := UnavailableItem(id, line.productId, line.quantity, lineAvailable)];
      assert unavailable[id] == Entry(pos, line);
      SameIdSameLine(lines, line);
      done, todo := done + {id}, todo - {id};
    }
    forall line | line in lines
      ensures line.orderLineId in dependents <==> s in StockItems(pos, line)
    {
      SameIdSameLine(lines, line);
    }
  }

  lemma SameIdSameLine(lines: seq<Line>, line: Line)
    requires DistinctLineIds(lines) && line in lines
    ensures forall other :: other in lines && other.orderLineId == line.orderLineId ==> other == line
  {
  }

  lemma MarkAgain(pos: Pos, lines: seq<Line>, line: Line, unavailable: map<Id, UnavailableItem>)
    requires DistinctLineIds(lines) && line in lines && Unsellable(pos, line) && Marked(pos, lines, {}, unavailable)
    ensures Marked(pos, lines, {}, unavailable[line.orderLineId := Entry(pos, line)])
  {
    SameIdSameLine(lines, line);
  }

  /** The second loop of `commitOnce`: indexes the lines and checks the locked products once more. */
  method IndexLines(pos: Pos, lines: seq<Line>, before: map<Id, UnavailableItem>)
    returns (linesById: map<Id, Line>, unavailable: map<Id, UnavailableItem>)
    requires DistinctLineIds(lines) && Marked(pos, lines, {}, before)
    ensures Marked(pos, lines, {}, unavailable)
    ensures forall line :: line in lines ==> line.orderLineId in linesById && linesById[line.orderLineId] == line
  {
    linesById, unavailable := map[], before;
    for i := 0 to |lines|
      invariant Marked(pos, lines, {}, unavailable)
      invariant forall j :: 0 <= j < i ==> lines[j].orderLineId in linesById && linesById[lines[j].orderLineId] == lines[j]
    {
      var line := lines[i];
      linesById := linesById[line.orderLineId := line];
      if !OnSale(pos, line.productId) {
        MarkAgain(pos, lines, line, unavailable);
        unavailable := unavailable[line.orderLineId := Entry(pos, line)];
      }
    }
  }

  /** The third loop of `commitOnce`: the lines that depend on a stock item that does not cover its demand are
      marked, stock item by stock item in map order. */
  method MarkShort(
    pos: Pos, lines: seq<Line>, linesById: map<Id, Line>, demands: map<Id, StockDemand>, compositeLines: set<Id>,
    before: map<Id, UnavailableItem>)
    returns (unavailable: map<Id, UnavailableItem>, ghost short: set<Id>)
    requires DistinctLineIds(lines) && Tallied(pos, lines, None, {}, demands) && Marked(pos, lines, {}, before)
    requires forall line :: line in lines ==> line.orderLineId in linesById && linesById[line.orderLineId] == line
    requires compositeLines == set line | line in lines && NeedsExpansion(pos, line) :: line.orderLineId
    ensures Marked(pos, lines, short, unavailable)
    ensures short == set s | s in DemandIds(pos, lines) && !Covered(pos, lines, s)
  {
    unavailable, short := before, {};
    var todo := demands.Keys;
    while todo != {}
      invariant todo <= demands.Keys && ShortAmong(pos, lines, demands.Keys - todo, short)
      invariant Marked(pos, lines, short, unavailable)
      decreases todo
    {
      var s :| s in todo;
      var demand := demands[s];
      TalliedIsDemand(pos, lines, demands, s);
      ShortOneMore(pos, lines, demands.Keys, todo, short, s);
      if !(Physical(pos, s) && pos.items[s].stock >= demand.quantity) {
        unavailable := MarkDependents(pos, lines, linesById, compositeLines, short, s, demand.dependentLines, unavailable);
        short := short + {s};
      }
      todo := todo - {s};
    }
    assert demands.Keys - {} == demands.Keys == DemandIds(pos, lines) + {};
  }

  /** Among the stock items seen so far, those that do not cover their demand. */
  ghost predicate ShortAmong(pos: Pos, lines: seq<Line>, seen: set<Id>, short: set<Id>) {
    forall s :: s in short <==> s in seen && !Covered(pos, lines, s)
  }

  lemma ShortOneMore(pos: Pos, lines: seq<Line>, all: set<Id>, todo: set<Id>, short: set<Id>, s: Id)
    requires todo <= all && s in todo && ShortAmong(pos, lines, all - todo, short)
    ensures ShortAmong(pos, lines, all - (todo - {s}), if Covered(pos, lines, s) then short else short + {s})
  {
  }

  lemma TalliedIsDemand(pos: Pos, lines: seq<Line>, demands: map<Id, StockDemand>, s: Id)
    requires Tallied(pos, lines, None, {}, demands) && s in demands
    ensures demands[s] == DemandOf(pos, lines, s)
  {
  }

  method CheckStock(
    pos: Pos, lines: seq<Line>, demands: map<Id, StockDemand>, compositeLines: set<Id>, before: map<Id, UnavailableItem>)
    returns (unavailable: map<Id, UnavailableItem>)
    requires ValidLines(lines) && Tallied(pos, lines, None, {}, demands) && Marked(pos, lines, {}, before)
    requires compositeLines == set line | line in lines && NeedsExpansion(pos, line) :: line.orderLineId
    ensures SortedEntries(unavailable) == Report(pos, lines)
    ensures unavailable.Keys == {} <==> !Rejected(pos, lines)
  {
    var linesById, marked := IndexLines(pos, lines, before);
    unavailable := marked;
    ghost var short;
    unavailable, short := MarkShort(pos, lines, linesById, demands, compositeLines, unavailable);
    MarkedLinesAreReported(pos, lines, short, unavailable);
  }

  lemma MarkedLinesAreReported(pos: Pos, lines: seq<Line>, short: set<Id>, unavailable: map<Id, UnavailableItem>)
    requires DistinctLineIds(lines) && Marked(pos, lines, short, unavailable)
    requires short == set s | s in DemandIds(pos, lines) && !Covered(pos, lines, s)
    ensures SortedEntries(unavailable) == Report(pos, lines)
    ensures unavailable.Keys == {} <==> !Rejected(pos, lines)
  {
    forall line | line in lines
      ensures line.orderLineId in unavailable <==> LineUnavailable(pos, lines, line)
    {
      assert forall s :: s in StockItems(pos, line) ==> s in DemandIds(pos, lines);
    }
    SortedEntriesAreSorted(unavailable);
    var items := SortedEntries(unavailable);
    forall item
      ensures item in items <==> exists line :: line in lines && LineUnavailable(pos, lines, line) && item == Entry(pos, line)
    {
      if item in items {
        var line :| line in lines && line.orderLineId == item.orderLineId;
        assert item == Entry(pos, line);
      }
    }
    ReportIsUnique(pos, lines, items, Report(pos, lines));
    if unavailable.Keys != {} {
      var id :| id in unavailable;
      var line :| line in lines && line.orderLineId == id;
      assert LineUnavailable(pos, lines, line);
    }
  }

  class Store {
    var items: map<Id, Item>
    var recipes: map<Id, seq<Component>>
    var movements: seq<Movement>
    var receipts: map<Id, Receipt>

    ghost function View(): Database
      reads this
    {
      Database(Pos(items, recipes), movements, receipts)
    }

    /** `commitOnce`. The writes are collected in local tables and become visible together at the end, the way
        a transaction's writes do; every error path leaves the tables as they were. */
    method CommitOnce(command: CommitCommand, fingerprint: string, eventId: Id, now: Instant) returns (outcome: Outcome)
      requires ValidCommand(command)
      modifies this
      ensures (View(), outcome) == old(Commit(View(), command, fingerprint, eventId, now))
    {
      if command.operationId in receipts {
        var stored := receipts[command.operationId];
        if stored.fingerprint != fingerprint {
          return OperationConflict;
        }
        var valid := ValidateResult(stored.result);
        return if valid then Replied(stored.result) else StoreUnavailable;
      }
      var pos := Pos(items, recipes);
      var overflow, demands, unsellable, compositeLines := ExpandLines(pos, command.lines);
      if overflow {
        return StoreUnavailable;
      }
      var unavailable := CheckStock(pos, command.lines, demands, compositeLines, unsellable);
      var status, newItems, newMovements := ItemsUnavailable, items, movements;
      if |unavailable.Keys| == 0 {
        status := Committed;
        newItems, newMovements := Deduct(pos, command, demands, movements, now);
      }
      var result := CommitResult(
        SCHEMA_VERSION, eventId, command.operationId, command.orderId, status, now, SortedEntries(unavailable));
      ghost var before := View();
      ReportIsValid(pos, command.lines, Report(pos, command.lines));
      if exists op :: op in receipts
           && (receipts[op].requestEventId == command.eventId || receipts[op].result.eventId == eventId) {
        assert EventTaken(before.receipts, command.eventId, eventId);
        return OperationConflict;
      }
      items, movements := newItems, newMovements;
      receipts := receipts[command.operationId := Receipt(command.eventId, command.orderId, fingerprint, result)];
      return Replied(result);
    }
  }

  ghost predicate AllCovered(pos: Pos, lines: seq<Line>, ids: seq<Id>) {
    forall i :: 0 <= i < |ids| ==> Covered(pos, lines, ids[i])
  }

  ghost predicate QuantitiesAre(pos: Pos, lines: seq<Line>, ids: seq<Id>, demands: map<Id, StockDemand>) {
    forall i :: 0 <= i < |ids| ==> ids[i] in demands && demands[ids[i]].quantity == Demand(pos, lines, ids[i])
  }

  /** The fourth loop of `commitOnce`: for each stock item in turn, a guarded update and one sale movement.
      The guard holds every time, so no update misses its row. */
  method DeductAll(
    pos: Pos, command: CommitCommand, demands: map<Id, StockDemand>, ids: seq<Id>, before: seq<Movement>, now: Instant)
    returns (items: map<Id, Item>, movements: seq<Movement>)
    requires Increasing(ids) && AllCovered(pos, command.lines, ids) && QuantitiesAre(pos, command.lines, ids, demands)
    ensures items == DeductedOn(pos, command.lines, Elements(ids))
    ensures |movements| == |before| + |ids| && movements[..|before|] == before
    ensures forall i :: 0 <= i < |ids| ==> movements[|before| + i] == SaleOf(pos, command, ids[i], now)
  {
    items, movements := pos.items, before;
    for i := 0 to |ids|
      invariant items == DeductedOn(pos, command.lines, Elements(ids[..i]))
      invariant |movements| == |before| + i && movements[..|before|] == before
      invariant forall j :: 0 <= j < i ==> movements[|before| + j] == SaleOf(pos, command, ids[j], now)
    {
      var s := ids[i];
      var quantity: int := demands[s].quantity;
      assert Covered(pos, command.lines, s);
      DeductOneMore(pos, command.lines, ids, i);
      // The guard of the update.
      assert items[s].active && items[s].tracksStock && !items[s].composite && items[s].stock >= quantity;
      items := items[s := items[s].(stock := items[s].stock - quantity)];
      movements := movements + [Movement(s, 0 - quantity, command.orderId, command.operationId, now)];
    }
    assert ids[..|ids|] == ids;
  }

  method Deduct(pos: Pos, command: CommitCommand, demands: map<Id, StockDemand>, before: seq<Movement>, now: Instant)
    returns (items: map<Id, Item>, movements: seq<Movement>)
    requires Tallied(pos, command.lines, None, {}, demands)
    requires !Rejected(pos, command.lines)
    ensures items == Deducted(pos, command.lines).items
    ensures movements == before + SaleMovements(pos, command, now)
  {
    var ids := Sorted(demands.Keys);
    SortedIsIncreasing(demands.Keys);
    TalliedIsCovered(pos, command.lines, demands, ids);
    items, movements := DeductAll(pos, command, demands, ids, before, now);
    SalesAppended(pos, command, ids, before, movements, now);
  }

  lemma TalliedIsCovered(pos: Pos, lines: seq<Line>, demands: map<Id, StockDemand>, ids: seq<Id>)
    requires Tallied(pos, lines, None, {}, demands) && !Rejected(pos, lines) && Elements(ids) == demands.Keys
    ensures demands.Keys == DemandIds(pos, lines)
    ensures AllCovered(pos, lines, ids) && QuantitiesAre(pos, lines, ids, demands)
  {
    CommitsExactlyWhenCovered(pos, lines);
    assert demands.Keys == DemandIds(pos, lines) + {};
    forall i | 0 <= i < |ids|
      ensures Covered(pos, lines, ids[i]) && ids[i] in demands && demands[ids[i]].quantity == Demand(pos, lines, ids[i])
    {
      assert ids[i] in Elements(ids);
    }
  }

  lemma SalesAppended(
    pos: Pos, command: CommitCommand, ids: seq<Id>, before: seq<Movement>, movements: seq<Movement>, now: Instant)
    requires ids == Sorted(DemandIds(pos, command.lines))
    requires |movements| == |before| + |ids| && movements[..|before|] == before
    requires forall i :: 0 <= i < |ids| ==> movements[|before| + i] == SaleOf(pos, command, ids[i], now)
    ensures movements == before + SaleMovements(pos, command, now)
  {
  }

  lemma DeductOneMore(pos: Pos, lines: seq<Line>, ids: seq<Id>, i: nat)
    requires i < |ids| && Increasing(ids) && ids[i] in pos.items
    ensures DeductedOn(pos, lines, Elements(ids[..i]))[ids[i]] == pos.items[ids[i]]
    ensures DeductedOn(pos, lines, Elements(ids[..i + 1])) ==
              DeductedOn(pos, lines, Elements(ids[..i]))
                [ids[i] := pos.items[ids[i]].(stock := pos.items[ids[i]].stock - Demand(pos, lines, ids[i]))]
  {
  }

  method ValidateResult(result: CommitResult) returns (ok: bool)
    ensures ok <==> ValidResult(result)
  {
    if result.schemaVersion != SCHEMA_VERSION || result.eventId == NIL || result.operationId == NIL
       || result.orderId == NIL || result.occurredAt == 0 {
      return false;
    }
    var items := result.unavailableItems;
    if result.status.Committed? || items == [] {
      return result.status.Committed? && items == [];
    }
    var lineIds: set<Id> := {};
    for i := 0 to |items|
      invariant forall j :: 0 <= j < i ==>
        items[j].orderLineId != NIL && items[j].productId != NIL
        && items[j].requestedQuantity >= 1 && items[j].availableQuantity >= 0
      invariant forall j, k :: 0 <= j < k < i ==> items[j].orderLineId != items[k].orderLineId
      invariant lineIds == set j | 0 <= j < i :: items[j].orderLineId
    {
      var item := items[i];
      assert item in items;
      if item.orderLineId == NIL || item.productId == NIL || item.requestedQuantity < 1 || item.availableQuantity < 0 {
        return false;
      }
      if item.orderLineId in lineIds {
        assert !DistinctItems(items);
        return false;
      }
      lineIds := lineIds + {item.orderLineId};
    }
    return true;
  }
}
