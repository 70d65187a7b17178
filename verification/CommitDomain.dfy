/** The inventory commit command and its result, with the checks both services run on them. */
module CommitDomain {
  import opened Basics

  const SCHEMA_VERSION := "1.0"

  datatype Line = Line(orderLineId: Id, productId: Id, quantity: int)

  datatype CommitCommand = CommitCommand(
    schemaVersion: string, eventId: Id, operationId: Id, orderId: Id, occurredAt: Instant, lines: seq<Line>)

  datatype ResultStatus = Committed | ItemsUnavailable

  datatype UnavailableItem = UnavailableItem(
    orderLineId: Id, productId: Id, requestedQuantity: int, availableQuantity: int)

  datatype CommitResult = CommitResult(
    schemaVersion: string, eventId: Id, operationId: Id, orderId: Id, status: ResultStatus,
    occurredAt: Instant, unavailableItems: seq<UnavailableItem>)

  ghost predicate DistinctLineIds(lines: seq<Line>) {
    forall i, j :: 0 <= i < j < |lines| ==> lines[i].orderLineId != lines[j].orderLineId
  }

  ghost predicate DistinctProducts(lines: seq<Line>) {
    forall i, j :: 0 <= i < j < |lines| ==> lines[i].productId != lines[j].productId
  }

  predicate GoodLine(line: Line) {
    line.orderLineId != NIL && line.productId != NIL && 1 <= line.quantity <= 100
  }

  ghost predicate ValidLines(lines: seq<Line>) {
    && 1 <= |lines| <= 100
    && (forall line :: line in lines ==> GoodLine(line))
    && DistinctLineIds(lines)
    && DistinctProducts(lines)
  }

  ghost predicate ValidCommand(command: CommitCommand) {
    && command.schemaVersion == SCHEMA_VERSION
    && command.eventId != NIL && command.operationId != NIL && command.orderId != NIL
    && command.occurredAt != 0
    && ValidLines(command.lines)
  }

  /** `CommitCommand.Validate`: one pass that remembers the identifiers already seen. */
  method ValidateCommand(command: CommitCommand) returns (ok: bool)
    ensures ok <==> ValidCommand(command)
  {
    if command.schemaVersion != SCHEMA_VERSION
       || command.eventId == NIL || command.operationId == NIL || command.orderId == NIL
       || command.occurredAt == 0 || |command.lines| < 1 || |command.lines| > 100 {
      return false;
    }
    ok := ValidateLines(command.lines);
  }

  method ValidateLines(lines: seq<Line>) returns (ok: bool)
    requires 1 <= |lines| <= 100
    ensures ok <==> ValidLines(lines)
  {
    var lineIds: set<Id>, productIds: set<Id> := {}, {};
    for i := 0 to |lines|
      invariant forall j :: 0 <= j < i ==> GoodLine(lines[j])
      invariant forall j, k :: 0 <= j < k < i ==>
        lines[j].orderLineId != lines[k].orderLineId && lines[j].productId != lines[k].productId
      invariant lineIds == set j | 0 <= j < i :: lines[j].orderLineId
      invariant productIds == set j | 0 <= j < i :: lines[j].productId
    {
      var line := lines[i];
      if line.orderLineId == NIL || line.productId == NIL || line.quantity < 1 || line.quantity > 100 {
        assert line in lines && !GoodLine(line);
        return false;
      }
      if line.orderLineId in lineIds {
        assert !DistinctLineIds(lines);
        return false;
      }
      if line.productId in productIds {
        assert !DistinctProducts(lines);
        return false;
      }
      lineIds, productIds := lineIds + {line.orderLineId}, productIds + {line.productId};
    }
    return true;
  }

  ghost predicate DistinctItems(items: seq<UnavailableItem>) {
    forall i, j :: 0 <= i < j < |items| ==> items[i].orderLineId != items[j].orderLineId
  }

  /** `CommitResult.Validate`. */
  ghost predicate ValidResult(result: CommitResult) {
    && result.schemaVersion == SCHEMA_VERSION && result.eventId != NIL && result.operationId != NIL
    && result.orderId != NIL && result.occurredAt != 0
    && (result.status.Committed? ==> result.unavailableItems == [])
    && (result.status.ItemsUnavailable? ==>
          && result.unavailableItems != []
          && DistinctItems(result.unavailableItems)
          && forall item :: item in result.unavailableItems ==>
               item.orderLineId != NIL && item.productId != NIL
               && item.requestedQuantity >= 1 && item.availableQuantity >= 0)
  }

  /** The item repeats a requested line: same line, product and quantity, with a plausible availability. */
  ghost predicate Echoes(item: UnavailableItem, lines: seq<Line>) {
    && item.availableQuantity >= 0
    && Line(item.orderLineId, item.productId, item.requestedQuantity) in lines
  }

  /** What the ordering service accepts as an answer to `request`; the strict decoder refuses a COMMITTED
      answer that carries items. */
  ghost predicate AcceptableReply(reply: CommitResult, request: CommitCommand) {
    && reply.schemaVersion == SCHEMA_VERSION
    && reply.operationId == request.operationId && reply.orderId == request.orderId
    && (reply.status.ItemsUnavailable? <==> reply.unavailableItems != [])
    && (forall item :: item in reply.unavailableItems ==> Echoes(item, request.lines))
    && DistinctItems(reply.unavailableItems)
  }

  /** `validateResult`: the requested lines are indexed by line identifier, then every item is looked up. */
  method ValidateReply(reply: CommitResult, request: CommitCommand) returns (ok: bool)
    requires DistinctLineIds(request.lines)
    ensures ok <==> AcceptableReply(reply, request)
  {
    if reply.schemaVersion != SCHEMA_VERSION || reply.operationId != request.operationId
       || reply.orderId != request.orderId {
      return false;
    }
    if reply.status.Committed? != (reply.unavailableItems == []) {
      return false;
    }
    var requested := IndexRequest(request.lines);
    ok := CheckItems(reply.unavailableItems, request.lines, requested);
  }

  method IndexRequest(lines: seq<Line>) returns (requested: map<Id, Line>)
    requires DistinctLineIds(lines)
    ensures forall id :: id in requested ==> requested[id] in lines && requested[id].orderLineId == id
    ensures forall line :: line in lines ==> line.orderLineId in requested && requested[line.orderLineId] == line
  {
    requested := map[];
    for i := 0 to |lines|
      invariant forall id :: id in requested ==> requested[id] in lines && requested[id].orderLineId == id
      invariant forall j :: 0 <= j < i ==> lines[j].orderLineId in requested && requested[lines[j].orderLineId] == lines[j]
    {
      requested := requested[lines[i].orderLineId := lines[i]];
    }
  }

  method CheckItems(items: seq<UnavailableItem>, ghost lines: seq<Line>, requested: map<Id, Line>) returns (ok: bool)
    requires forall id :: id in requested ==> requested[id] in lines && requested[id].orderLineId == id
    requires forall line :: line in lines ==> line.orderLineId in requested && requested[line.orderLineId] == line
    ensures ok <==> (forall item :: item in items ==> Echoes(item, lines)) && DistinctItems(items)
  {
    var seen: set<Id> := {};
    for i := 0 to |items|
      invariant forall j :: 0 <= j < i ==> Echoes(items[j], lines)
      invariant forall j, k :: 0 <= j < k < i ==> items[j].orderLineId != items[k].orderLineId
      invariant seen == set j | 0 <= j < i :: items[j].orderLineId
    {
      var item := items[i];
      var asked := Line(item.orderLineId, item.productId, item.requestedQuantity);
      assert Echoes(item, lines) <==> item.availableQuantity >= 0 && asked in lines;
      if item.orderLineId !in requested
         || requested[item.orderLineId].productId != item.productId
         || requested[item.orderLineId].quantity != item.requestedQuantity
         || item.availableQuantity < 0 {
        assert item in items && !Echoes(item, lines);
        return false;
      }
      assert requested[item.orderLineId] == asked;
      if item.orderLineId in seen {
        assert !DistinctItems(items);
        return false;
      }
      seen := seen + {item.orderLineId};
    }
    return true;
  }
}
