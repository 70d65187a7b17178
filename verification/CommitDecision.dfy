/** What the inventory adapter decides about a commit command, stated per line and per stock item, with no
    loop, no map and no order: the loops of module InventoryStore are proved against it. */
module CommitDecision {
  import opened Basics
  import opened CommitDomain

  datatype Item = Item(stock: int, active: bool, tracksStock: bool, composite: bool)

  /** One component row of a composite item; the quantity is in thousandths (`numeric(18,3)`). */
  datatype Component = Component(componentId: Id, thousandths: nat)

  /** The POS tables the decision reads. */
  datatype Pos = Pos(items: map<Id, Item>, recipes: map<Id, seq<Component>>)

  const MAX_INT32: nat := 0x7fff_ffff

  function Recipe(pos: Pos, id: Id): seq<Component> {
    if id in pos.recipes then pos.recipes[id] else []
  }

  /** `CEIL("Quantity" * n)`. */
  function CeilDemand(row: Component, quantity: nat): nat {
    (row.thousandths * quantity + 999) / 1000
  }

  predicate OnSale(pos: Pos, id: Id) {
    id in pos.items && pos.items[id].active
  }

  predicate NeedsExpansion(pos: Pos, line: Line) {
    OnSale(pos, line.productId) && pos.items[line.productId].tracksStock && pos.items[line.productId].composite
  }

  /** A line nobody could sell whatever the stock: its product is missing or inactive, or it is a
      stock-tracked composite without components. */
  predicate Unsellable(pos: Pos, line: Line) {
    !OnSale(pos, line.productId) || (NeedsExpansion(pos, line) && Recipe(pos, line.productId) == [])
  }

  /** The stock items a line draws from. */
  ghost function StockItems(pos: Pos, line: Line): set<Id> {
    if !OnSale(pos, line.productId) || !pos.items[line.productId].tracksStock then {}
    else if !pos.items[line.productId].composite then {line.productId}
    else set row | row in Recipe(pos, line.productId) :: row.componentId
  }

  ghost function RowQuantity(line: Line, s: Id): Component -> nat {
    (row: Component) => if row.componentId == s && line.quantity >= 0 then CeilDemand(row, line.quantity) else 0
  }

  /** How much of stock item `s` a line draws; each component row is rounded up on its own. */
  ghost function LineQuantity(pos: Pos, line: Line, s: Id): nat {
    if s !in StockItems(pos, line) then 0
    else if pos.items[line.productId].composite then SumOf(Recipe(pos, line.productId), RowQuantity(line, s))
    else if line.quantity >= 0 then line.quantity else 0
  }

  ghost function DrawsOn(pos: Pos, s: Id): Line -> nat {
    (line: Line) => LineQuantity(pos, line, s)
  }

  /** The demand of a whole order for one stock item, shared over all its lines. */
  ghost function Demand(pos: Pos, lines: seq<Line>, s: Id): nat {
    SumOf(lines, DrawsOn(pos, s))
  }

  ghost function DemandIds(pos: Pos, lines: seq<Line>): set<Id> {
    set line, s | line in lines && s in StockItems(pos, line) :: s
  }

  predicate Physical(pos: Pos, s: Id) {
    OnSale(pos, s) && pos.items[s].tracksStock && !pos.items[s].composite
  }

  ghost predicate Covered(pos: Pos, lines: seq<Line>, s: Id) {
    Physical(pos, s) && pos.items[s].stock >= Demand(pos, lines, s)
  }

  ghost predicate LineUnavailable(pos: Pos, lines: seq<Line>, line: Line) {
    Unsellable(pos, line) || exists s :: s in StockItems(pos, line) && !Covered(pos, lines, s)
  }

  /** The entry reported for an unavailable line: a composite or unsellable line reports nothing available. */
  function Entry(pos: Pos, line: Line): UnavailableItem {
    var available :=
      if Unsellable(pos, line) || pos.items[line.productId].composite || pos.items[line.productId].stock < 0 then 0
      else pos.items[line.productId].stock;
    UnavailableItem(line.orderLineId, line.productId, line.quantity, available)
  }

  ghost predicate Rejected(pos: Pos, lines: seq<Line>) {
    exists line :: line in lines && LineUnavailable(pos, lines, line)
  }

  /** The report: one entry per unavailable line, in the order of the line identifiers. */
  ghost predicate IsReport(pos: Pos, lines: seq<Line>, items: seq<UnavailableItem>) {
    && (forall i, j :: 0 <= i < j < |items| ==> items[i].orderLineId < items[j].orderLineId)
    && (forall item :: item in items <==>
          exists line :: line in lines && LineUnavailable(pos, lines, line) && item == Entry(pos, line))
  }

  lemma ReportExists(pos: Pos, lines: seq<Line>)
    requires DistinctLineIds(lines)
    ensures exists items :: IsReport(pos, lines, items)
  {
    var unavailable := map line | line in lines && LineUnavailable(pos, lines, line) :: line.orderLineId := Entry(pos, line);
    EntriesMakeReport(pos, lines, unavailable);
    assert IsReport(pos, lines, SortedEntries(unavailable));
  }

  /** The unavailable lines' entries by line, sorted. */
  lemma EntriesMakeReport(pos: Pos, lines: seq<Line>, unavailable: map<Id, UnavailableItem>)
    requires forall line :: line in lines && LineUnavailable(pos, lines, line) ==>
      line.orderLineId in unavailable && unavailable[line.orderLineId] == Entry(pos, line)
    requires forall id :: id in unavailable ==> exists line ::
      line in lines && LineUnavailable(pos, lines, line) && line.orderLineId == id && unavailable[id] == Entry(pos, line)
    ensures IsReport(pos, lines, SortedEntries(unavailable))
  {
    SortedEntriesAreSorted(unavailable);
    var items := SortedEntries(unavailable);
    forall line | line in lines && LineUnavailable(pos, lines, line)
      ensures Entry(pos, line) in items
    {
    }
    forall item | item in items
      ensures exists line :: line in lines && LineUnavailable(pos, lines, line) && item == Entry(pos, line)
    {
      assert item.orderLineId in unavailable;
    }
  }

  ghost function Report(pos: Pos, lines: seq<Line>): (items: seq<UnavailableItem>)
    requires DistinctLineIds(lines)
    ensures IsReport(pos, lines, items)
  {
    ReportExists(pos, lines);
    var items :| IsReport(pos, lines, items);
    items
  }

  /** `sortedUnavailable`: the values of a map in the order of its keys. */
  function SortedEntries(values: map<Id, UnavailableItem>): seq<UnavailableItem> {
    EntriesAt(values, Sorted(values.Keys))
  }

  function EntriesAt(values: map<Id, UnavailableItem>, ids: seq<Id>): (items: seq<UnavailableItem>) {
    seq(|ids|, i requires 0 <= i < |ids| =>
      if ids[i] in values then values[ids[i]] else UnavailableItem(ids[i], NIL, 0, 0))
  }

  lemma SortedEntriesAreSorted(values: map<Id, UnavailableItem>)
    requires forall id :: id in values ==> values[id].orderLineId == id
    ensures var items := SortedEntries(values);
      && (forall i, j :: 0 <= i < j < |items| ==> items[i].orderLineId < items[j].orderLineId)
      && (forall item :: item in items <==> item.orderLineId in values && values[item.orderLineId] == item)
  {
    var ids, items := Sorted(values.Keys), SortedEntries(values);
    SortedIsIncreasing(values.Keys);
    assert forall i :: 0 <= i < |ids| ==> ids[i] in Elements(ids) && items[i] == values[ids[i]];
    forall item
      ensures item in items <==> item.orderLineId in values && values[item.orderLineId] == item
    {
      if item.orderLineId in values && values[item.orderLineId] == item {
        assert item.orderLineId in Elements(ids);
        var i :| 0 <= i < |ids| && ids[i] == item.orderLineId;
        assert items[i] == item;
      }
    }
  }

  /** The integer cast of a rounded component quantity does not fit its 32-bit column type. */
  ghost predicate Overflows(pos: Pos, lines: seq<Line>) {
    exists line, row ::
      line in lines && NeedsExpansion(pos, line) && row in Recipe(pos, line.productId)
      && line.quantity >= 0 && CeilDemand(row, line.quantity) > MAX_INT32
  }

  // ----- The decision is exact -----

  /** The commit succeeds if and only if every line's product is on sale, every stock-tracked composite has
      components, and every stock item that is drawn on is physical and covers its summed demand. */
  lemma CommitsExactlyWhenCovered(pos: Pos, lines: seq<Line>)
    ensures !Rejected(pos, lines) <==>
              && (forall line :: line in lines ==>
                    && OnSale(pos, line.productId)
                    && (NeedsExpansion(pos, line) ==> Recipe(pos, line.productId) != []))
              && (forall s :: s in DemandIds(pos, lines) ==>
                    Physical(pos, s) && Demand(pos, lines, s) <= pos.items[s].stock)
  {
  }

  /** A report lists a line exactly when the line is unavailable, and lists it once. */
  lemma ReportIsValid(pos: Pos, lines: seq<Line>, items: seq<UnavailableItem>)
    requires ValidLines(lines) && IsReport(pos, lines, items)
    ensures DistinctItems(items)
    ensures forall item :: item in items ==> Echoes(item, lines)
    ensures items == [] <==> !Rejected(pos, lines)
  {
    forall item | item in items
      ensures Echoes(item, lines)
    {
      var line :| line in lines && LineUnavailable(pos, lines, line) && item == Entry(pos, line);
      assert line == Line(item.orderLineId, item.productId, item.requestedQuantity);
    }
    assert items != [] ==> items[0] in items;
    if Rejected(pos, lines) {
      var line :| line in lines && LineUnavailable(pos, lines, line);
      assert Entry(pos, line) in items;
    }
  }

  /** There is only one report. */
  lemma ReportIsUnique(pos: Pos, lines: seq<Line>, xs: seq<UnavailableItem>, ys: seq<UnavailableItem>)
    requires IsReport(pos, lines, xs) && IsReport(pos, lines, ys)
    ensures xs == ys
  {
    SortedItemsAreUnique(xs, ys);
  }

  lemma {:induction false} SortedItemsAreUnique(xs: seq<UnavailableItem>, ys: seq<UnavailableItem>)
    requires forall i, j :: 0 <= i < j < |xs| ==> xs[i].orderLineId < xs[j].orderLineId
    requires forall i, j :: 0 <= i < j < |ys| ==> ys[i].orderLineId < ys[j].orderLineId
    requires forall item :: item in xs <==> item in ys
    ensures xs == ys
  {
    assert xs != [] ==> xs[0] in ys;
    assert ys != [] ==> ys[0] in xs;
    if xs != [] {
      assert xs[0] == ys[0];
      forall item
        ensures item in xs[1..] <==> item in ys[1..]
      {
        assert item in xs[1..] <==> item in xs && item != xs[0];
        assert item in ys[1..] <==> item in ys && item != ys[0];
      }
      SortedItemsAreUnique(xs[1..], ys[1..]);
    }
  }

  // ----- The decision does not depend on the order of the lines -----

  lemma DemandIgnoresOrder(pos: Pos, lines: seq<Line>, shuffled: seq<Line>)
    requires multiset(lines) == multiset(shuffled)
    ensures forall s :: Demand(pos, lines, s) == Demand(pos, shuffled, s)
    ensures DemandIds(pos, lines) == DemandIds(pos, shuffled)
  {
    forall s
      ensures Demand(pos, lines, s) == Demand(pos, shuffled, s)
    {
      SumPermutation(lines, shuffled, DrawsOn(pos, s));
    }
    assert forall line :: line in lines <==> line in multiset(shuffled);
  }

  /** Status, report and overflow depend only on the bag of lines and the POS tables. */
  lemma DecisionIgnoresOrder(pos: Pos, lines: seq<Line>, shuffled: seq<Line>, items: seq<UnavailableItem>)
    requires multiset(lines) == multiset(shuffled)
    ensures Rejected(pos, lines) <==> Rejected(pos, shuffled)
    ensures Overflows(pos, lines) <==> Overflows(pos, shuffled)
    ensures IsReport(pos, lines, items) <==> IsReport(pos, shuffled, items)
  {
    DemandIgnoresOrder(pos, lines, shuffled);
    assert forall line :: line in lines <==> line in multiset(lines);
    assert forall line :: line in shuffled <==> line in multiset(shuffled);
    forall line
      ensures LineUnavailable(pos, lines, line) <==> LineUnavailable(pos, shuffled, line)
    {
      assert forall s :: Covered(pos, lines, s) <==> Covered(pos, shuffled, s);
    }
  }
}
