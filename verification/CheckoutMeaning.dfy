/** What a checkout comes to, said in the fields of the cart and of the placed order. */
module CheckoutMeaning {
  import opened Basics
  import opened CommitDomain
  import opened OrderingDomain
  import Ordering = OrderingStore
  import opened OrderingMeaning
  import opened Checkout

  // ----- Which carts are placed -----

  /** Price times quantity, added up. */
  function Worth(lines: seq<CartLine>): int {
    if lines == [] then 0
    else
      var last := lines[|lines| - 1];
      Worth(lines[..|lines| - 1]) + last.expectedUnitPrice * last.quantity
  }

  lemma {:induction false} ValueIsWorth(lines: seq<CartLine>)
    requires forall line :: line in lines ==> GoodCartLine(line)
    ensures CartValue(lines) == Worth(lines)
  {
    if lines != [] {
      var init, last := lines[..|lines| - 1], lines[|lines| - 1];
      ValueIsWorth(init);
      assert lines == init + [last] && GoodCartLine(last);
      CartValueAppend(init, last);
    }
  }

  /** The catalog sells the product, under a name, at the price the customer saw. */
  predicate StillOffered(line: CartLine, products: map<Id, Product>) {
    && line.productId in products && products[line.productId].orderable && products[line.productId].named
    && products[line.productId].unitPrice as int == line.expectedUnitPrice
  }

  ghost predicate WellFormed(cart: Cart) {
    && 1 <= |cart.lines| <= 100 && 1 <= |cart.address| <= 500 && |cart.notes| <= 500
    && (forall line :: line in cart.lines ==> 1 <= line.quantity <= 100 && 0 <= line.expectedUnitPrice)
    && (forall i, j :: 0 <= i < j < |cart.lines| ==> cart.lines[i].productId != cart.lines[j].productId)
  }

  /** A cart gets to the store if and only if it has 1 to 100 different products in quantities of 1 to 100, an address
      of 1 to 500 characters and notes of up to 500, all its products are still offered at the prices seen, and it is
      worth no more than a 64-bit integer holds. A refused cart changes nothing; the reason is that the cart changed
      only if it is well formed and some product is no longer so offered, and that it is invalid only if it is not well
      formed or worth too much. */
  lemma CartIsPlacedExactlyWhen(t: Ordering.Tables, cart: Cart, products: map<Id, Product>, supply: Supply)
    requires |cart.lines| <= |supply.lineIds|
    requires forall line :: line in cart.lines ==> line.expectedUnitPrice <= 0x7fff_ffff_ffff_ffff
    ensures var (after, outcome) := Call(t, cart, products, supply);
      var offered, affordable :=
        forall line :: line in cart.lines ==> StillOffered(line, products), Worth(cart.lines) <= 0x7fff_ffff_ffff_ffff;
      && (outcome.Answered? <==> WellFormed(cart) && offered && affordable)
      && (outcome.Refused? ==> after == t)
      && (outcome == Refused(CartChanged) ==> WellFormed(cart) && !offered)
      && (outcome == Refused(InvalidInput) ==> !WellFormed(cart) || !affordable)
  {
    assert ValidCart(cart) <==> WellFormed(cart);
    if ValidCart(cart) {
      CanonicalTotal(cart, products);
      ValueIsWorth(cart.lines);
      assert forall line :: line in cart.lines ==> (Matches(line, products) <==> StillOffered(line, products));
    }
  }

  // ----- What is placed -----

  /** The order line is the cart line: product, quantity, unit price, and their product. */
  predicate IsFor(mine: OrderLine, line: CartLine) {
    && mine.productId == line.productId && mine.quantity as int == line.quantity
    && mine.unitPrice as int == line.expectedUnitPrice && mine.lineTotal as int == line.expectedUnitPrice * line.quantity
  }

  /** As many order lines as cart lines, one for each, by product, with the identifiers supplied in that order. */
  ghost predicate LinesAreTheCart(lines: seq<OrderLine>, cart: Cart, lineIds: seq<Id>) {
    && |lines| == |cart.lines| <= |lineIds|
    && (forall line :: line in cart.lines ==> exists mine :: mine in lines && IsFor(mine, line))
    && (forall mine :: mine in lines ==> exists line :: line in cart.lines && IsFor(mine, line))
    && (forall i, j :: 0 <= i < j < |lines| ==> lines[i].productId < lines[j].productId)
    && forall i :: 0 <= i < |lines| ==> lines[i].id == lineIds[i]
  }

  /** The request asks for each product of the cart in the cart's quantity, and for nothing else. */
  ghost predicate RequestIsTheCart(request: CommitCommand, cart: Cart) {
    && |request.lines| == |cart.lines|
    && (forall line :: line in cart.lines ==> exists item ::
          item in request.lines && item.productId == line.productId && item.quantity == line.quantity)
    && (forall item :: item in request.lines ==> exists line ::
          line in cart.lines && item.productId == line.productId && item.quantity == line.quantity)
  }

  lemma OrderLineIsFor(line: CartLine, lineId: Id)
    requires GoodCartLine(line)
    ensures IsFor(OrderLineOf(line, lineId), line) && OrderLineOf(line, lineId).id == lineId
  {
  }

  lemma EachLineHasItsOwn(lines: seq<OrderLine>, sorted: seq<CartLine>)
    requires |lines| == |sorted| && forall i :: 0 <= i < |lines| ==> IsFor(lines[i], sorted[i])
    ensures forall line :: line in sorted ==> exists mine :: mine in lines && IsFor(mine, line)
    ensures forall mine :: mine in lines ==> exists line :: line in sorted && IsFor(mine, line)
  {
    forall line | line in sorted
      ensures exists mine :: mine in lines && IsFor(mine, line)
    {
      var i :| 0 <= i < |sorted| && sorted[i] == line;
      assert lines[i] in lines;
    }
    forall mine | mine in lines
      ensures exists line :: line in sorted && IsFor(mine, line)
    {
      var i :| 0 <= i < |lines| && lines[i] == mine;
      assert sorted[i] in sorted;
    }
  }

  lemma LinesAreFromTheCart(cart: Cart, supply: Supply)
    requires ValidCart(cart) && |cart.lines| <= |supply.lineIds|
    ensures LinesAreTheCart(DraftOf(cart, supply).lines, cart, supply.lineIds)
  {
    CanonicalCount(cart.lines);
    SortedLinesAreTheCart(CanonicalLines(cart.lines), cart, supply.lineIds);
  }

  lemma SortedLinesAreTheCart(sorted: seq<CartLine>, cart: Cart, lineIds: seq<Id>)
    requires InProductOrder(cart.lines, sorted) && |sorted| == |cart.lines| <= |lineIds|
    requires forall line :: line in cart.lines ==> GoodCartLine(line)
    ensures LinesAreTheCart(OrderLines(sorted, lineIds), cart, lineIds)
  {
    var lines := OrderLines(sorted, lineIds);
    forall i | 0 <= i < |sorted|
      ensures IsFor(lines[i], sorted[i]) && lines[i].id == lineIds[i]
    {
      assert sorted[i] in sorted;
      OrderLineIsFor(sorted[i], lineIds[i]);
    }
    EachLineHasItsOwn(lines, sorted);
  }

  lemma RequestIsFromTheCart(draft: Draft, cart: Cart, lineIds: seq<Id>)
    requires LinesAreTheCart(draft.lines, cart, lineIds)
    ensures RequestIsTheCart(RequestOf(draft), cart)
  {
    RequestsCarryDrafts(draft);
    var request := RequestOf(draft);
    forall line | line in cart.lines
      ensures exists item :: item in request.lines && item.productId == line.productId && item.quantity == line.quantity
    {
      var mine :| mine in draft.lines && IsFor(mine, line);
      var i :| 0 <= i < |draft.lines| && draft.lines[i] == mine;
      assert request.lines[i] in request.lines;
    }
    forall item | item in request.lines
      ensures exists line :: line in cart.lines && item.productId == line.productId && item.quantity == line.quantity
    {
      var i :| 0 <= i < |request.lines| && request.lines[i] == item;
      assert draft.lines[i] in draft.lines;
      var line :| line in cart.lines && IsFor(draft.lines[i], line);
    }
  }

  /** Everything but the lines: the identifiers and the clock supplied, the cart's checkout and customer, and in the
      fingerprint the cart's customer, address and notes. */
  predicate HeadIsTheCart(draft: Draft, cart: Cart, supply: Supply) {
    && draft.orderId == supply.orderId && draft.eventId == supply.eventId && draft.operationId == supply.operationId
    && draft.occurredAt == supply.now && draft.checkoutId == cart.checkoutId && draft.customerId == cart.customerId
    && draft.fingerprint.customerId == cart.customerId
    && draft.fingerprint.address == cart.address && draft.fingerprint.notes == cart.notes
  }

  /** A call that reaches the store drafts exactly the cart, at its exact worth. If the order is new, the store then
      holds it as drafted, and its outbox row asks the adapter for exactly the cart's products and quantities. */
  lemma PlacedOrderIsTheCart(t: Ordering.Tables, cart: Cart, products: map<Id, Product>, supply: Supply)
    requires |cart.lines| <= |supply.lineIds| && Call(t, cart, products, supply).1.Answered?
    ensures var (after, outcome) := Call(t, cart, products, supply);
      && HeadIsTheCart(outcome.draft, cart, supply)
      && LinesAreTheCart(outcome.draft.lines, cart, supply.lineIds)
      && outcome.subtotal as int == Worth(cart.lines)
      && (outcome.answer.Placed? && !outcome.answer.replayed ==>
            && outcome.answer.orderId == supply.orderId && supply.orderId in after.orders
            && LinesAreTheCart(after.orders[supply.orderId].lines, cart, supply.lineIds)
            && after.orders[supply.orderId].checkoutId == cart.checkoutId
            && after.orders[supply.orderId].customerId == cart.customerId
            && supply.operationId in after.outbox && RequestIsTheCart(after.outbox[supply.operationId].payload, cart))
  {
    var outcome := Call(t, cart, products, supply).1;
    CanonicalTotal(cart, products);
    ValueIsWorth(cart.lines);
    LinesAreFromTheCart(cart, supply);
    RequestIsFromTheCart(outcome.draft, cart, supply.lineIds);
    if outcome.answer.Placed? && !outcome.answer.replayed {
      Ordering.PlaceIsExact(t, outcome.draft);
    }
  }
}
