/** The checkout service: validation, totals on 64-bit integers, the canonical line order and the draft. */
module Checkout {
  import opened Basics
  import opened CommitDomain
  import opened OrderingDomain
  import Ordering = OrderingStore
  import Protocol
  import ProtocolTheorems

  datatype CartLine = CartLine(productId: Id, quantity: int, expectedUnitPrice: int)

  /** Address and notes as they are after trimming. */
  datatype Cart = Cart(customerId: Id, checkoutId: Id, address: string, notes: string, lines: seq<CartLine>)

  datatype Product = Product(named: bool, orderable: bool, unitPrice: Int64)

  datatype Failure = InvalidInput | CartChanged

  datatype Total = Total(subtotal: Int64) | NoTotal(failure: Failure)

  // ----- Validation and the canonical order -----

  ghost predicate DistinctCartProducts(lines: seq<CartLine>) {
    forall i, j :: 0 <= i < j < |lines| ==> lines[i].productId != lines[j].productId
  }

  predicate GoodCartLine(line: CartLine) {
    1 <= line.quantity <= 100 && 0 <= line.expectedUnitPrice <= MAX_INT64
  }

  ghost predicate ValidCartLines(lines: seq<CartLine>) {
    && 1 <= |lines| <= 100
    && (forall line :: line in lines ==> GoodCartLine(line))
    && DistinctCartProducts(lines)
  }

  ghost predicate ValidCart(cart: Cart) {
    ValidCartLines(cart.lines) && 1 <= |cart.address| <= 500 && |cart.notes| <= 500
  }

  /** `requested` and `productIDs` after the first loop. */
  ghost predicate Indexed(lines: seq<CartLine>, requested: map<Id, CartLine>) {
    && (forall line :: line in lines ==> line.productId in requested && requested[line.productId] == line)
    && (forall id :: id in requested ==> requested[id] in lines && requested[id].productId == id)
  }

  /** The first loop of `PlaceOrder`, then the sort. */
  method IndexCart(lines: seq<CartLine>) returns (ok: bool, requested: map<Id, CartLine>, productIds: seq<Id>)
    requires 1 <= |lines| <= 100 && forall line :: line in lines ==> line.expectedUnitPrice <= MAX_INT64
    ensures ok <==> ValidCartLines(lines)
    ensures ok ==> Indexed(lines, requested) && productIds == Sorted(requested.Keys)
  {
    requested, productIds := map[], [];
    for i := 0 to |lines|
      invariant forall line :: line in lines[..i] ==> GoodCartLine(line)
      invariant DistinctCartProducts(lines[..i])
      invariant Indexed(lines[..i], requested)
    {
      var line := lines[i];
      assert line in lines;
      if line.quantity < 1 || line.quantity > 100 || line.expectedUnitPrice < 0 {
        return false, requested, productIds;
      }
      IndexOneMore(lines[..i], line, requested);
      assert lines[..i + 1] == lines[..i] + [line];
      if line.productId in requested {
        NotDistinct(lines, i);
        return false, requested, productIds;
      }
      requested := requested[line.productId := line];
    }
    assert lines[..|lines|] == lines;
    return true, requested, Sorted(requested.Keys);
  }

  lemma IndexOneMore(lines: seq<CartLine>, line: CartLine, requested: map<Id, CartLine>)
    requires Indexed(lines, requested) && DistinctCartProducts(lines)
    ensures line.productId !in requested ==>
      Indexed(lines + [line], requested[line.productId := line]) && DistinctCartProducts(lines + [line])
    ensures line.productId in requested ==> !DistinctCartProducts(lines + [line])
  {
    var longer := lines + [line];
    if line.productId in requested {
      var other := requested[line.productId];
      var i :| 0 <= i < |lines| && lines[i] == other;
      assert longer[i].productId == longer[|lines|].productId;
    } else {
      forall i | 0 <= i < |lines|
        ensures lines[i].productId != line.productId
      {
        assert lines[i] in lines;
      }
    }
  }

  lemma NotDistinct(lines: seq<CartLine>, i: nat)
    requires i < |lines| && !DistinctCartProducts(lines[..i] + [lines[i]])
    ensures !DistinctCartProducts(lines)
  {
  }

  /** The cart's lines in the order of their product identifiers. */
  ghost predicate InProductOrder(lines: seq<CartLine>, sorted: seq<CartLine>) {
    && (forall i, j :: 0 <= i < j < |sorted| ==> sorted[i].productId < sorted[j].productId)
    && (forall line :: line in sorted <==> line in lines)
  }

  function Pick(requested: map<Id, CartLine>, ids: seq<Id>): (picked: seq<CartLine>)
    requires forall id :: id in ids ==> id in requested
    ensures |picked| == |ids| && forall i :: 0 <= i < |ids| ==> picked[i] == requested[ids[i]]
  {
    seq(|ids|, i requires 0 <= i < |ids| => requested[ids[i]])
  }

  lemma PickKeepsLines(lines: seq<CartLine>, requested: map<Id, CartLine>, ids: seq<Id>)
    requires Indexed(lines, requested) && forall id :: id in ids <==> id in requested
    ensures forall line :: line in Pick(requested, ids) <==> line in lines
  {
    var picked := Pick(requested, ids);
    forall i | 0 <= i < |ids|
      ensures picked[i] in lines
    {
      assert ids[i] in ids;
    }
    forall line | line in lines
      ensures line in picked
    {
      assert line.productId in ids;
      var i :| 0 <= i < |ids| && ids[i] == line.productId;
      assert picked[i] == line;
    }
  }

  lemma SortedLinesAreInOrder(lines: seq<CartLine>, requested: map<Id, CartLine>)
    requires Indexed(lines, requested)
    ensures forall id :: id in Sorted(requested.Keys) ==> id in requested
    ensures InProductOrder(lines, Pick(requested, Sorted(requested.Keys)))
  {
    var ids := Sorted(requested.Keys);
    SortedIsIncreasing(requested.Keys);
    forall id
      ensures id in ids <==> id in requested
    {
      assert id in ids <==> id in Elements(ids);
    }
    PickKeepsLines(lines, requested, ids);
    PickIncreases(lines, requested, ids);
  }

  lemma PickIncreases(lines: seq<CartLine>, requested: map<Id, CartLine>, ids: seq<Id>)
    requires Indexed(lines, requested) && Increasing(ids) && forall id :: id in ids ==> id in requested
    ensures forall i, j :: 0 <= i < j < |ids| ==>
      Pick(requested, ids)[i].productId < Pick(requested, ids)[j].productId
  {
    forall i | 0 <= i < |ids|
      ensures Pick(requested, ids)[i].productId == ids[i]
    {
      assert ids[i] in ids;
    }
  }

  /** There is only one such order. */
  lemma ProductOrderIsUnique(lines: seq<CartLine>, xs: seq<CartLine>, ys: seq<CartLine>)
    requires InProductOrder(lines, xs) && InProductOrder(lines, ys)
    ensures xs == ys
  {
    IncreasingLinesAreUnique(xs, ys);
  }

  lemma {:induction false} IncreasingLinesAreUnique(xs: seq<CartLine>, ys: seq<CartLine>)
    requires forall i, j :: 0 <= i < j < |xs| ==> xs[i].productId < xs[j].productId
    requires forall i, j :: 0 <= i < j < |ys| ==> ys[i].productId < ys[j].productId
    requires forall line :: line in xs <==> line in ys
    ensures xs == ys
  {
    assert xs != [] ==> xs[0] in ys;
    assert ys != [] ==> ys[0] in xs;
    if xs != [] {
      assert xs[0] == ys[0];
      forall line
        ensures line in xs[1..] <==> line in ys[1..]
      {
        assert line in xs[1..] <==> line in xs && line != xs[0];
        assert line in ys[1..] <==> line in ys && line != ys[0];
      }
      IncreasingLinesAreUnique(xs[1..], ys[1..]);
    }
  }

  lemma OrderIsPermutation(lines: seq<CartLine>, sorted: seq<CartLine>)
    requires DistinctCartProducts(lines) && InProductOrder(lines, sorted)
    ensures multiset(sorted) == multiset(lines)
  {
    assert NoRepeats(lines) && NoRepeats(sorted);
    SameElementsSameBag(sorted, lines);
  }

  // ----- Totals -----

  /** The line still is what the customer saw. */
  predicate Matches(line: CartLine, products: map<Id, Product>) {
    && line.productId in products
    && var product := products[line.productId];
       product.orderable && product.named && product.unitPrice as int == line.expectedUnitPrice && product.unitPrice >= 0
  }

  /** Price times quantity, as a mathematical integer. */
  function LineValue(line: CartLine): nat {
    if line.expectedUnitPrice >= 0 && line.quantity >= 0 then line.expectedUnitPrice * line.quantity else 0
  }

  function CartValue(lines: seq<CartLine>): nat {
    SumOf(lines, (line: CartLine) => LineValue(line))
  }

  /** The guard by division is the exact overflow test of the product. */
  lemma DivisionGuardIsExact(price: nat, quantity: int)
    requires 1 <= quantity
    ensures price > MAX_INT64 / quantity <==> price * quantity > MAX_INT64
  {
    var q, r := MAX_INT64 / quantity, MAX_INT64 % quantity;
    assert MAX_INT64 == q * quantity + r && 0 <= r < quantity;
    if price > q {
      assert price * quantity >= (q + 1) * quantity;
    } else {
      assert price * quantity <= q * quantity;
    }
  }

  lemma CartValueAppend(lines: seq<CartLine>, line: CartLine)
    ensures CartValue(lines + [line]) == CartValue(lines) + LineValue(line)
  {
  }

  /** The total of the lines, or the failure of the first line that is no longer as the customer saw it or makes the
      total too large. */
  ghost function TotalOf(lines: seq<CartLine>, products: map<Id, Product>): Total {
    if lines == [] then Total(0)
    else
      var init, last := lines[..|lines| - 1], lines[|lines| - 1];
      if TotalOf(init, products).NoTotal? then TotalOf(init, products)
      else if !Matches(last, products) then NoTotal(CartChanged)
      else if CartValue(lines) > MAX_INT64 then NoTotal(InvalidInput)
      else Total(CartValue(lines) as Int64)
  }

  /** There is a total exactly when all lines match and the mathematical total fits 64 bits, and then it is that one;
      a failure names a cause that is there. */
  lemma {:induction false} TotalIsExact(lines: seq<CartLine>, products: map<Id, Product>)
    ensures var total, matching := TotalOf(lines, products), forall line :: line in lines ==> Matches(line, products);
      && (total.Total? <==> matching && CartValue(lines) <= MAX_INT64)
      && (total.Total? ==> total.subtotal as int == CartValue(lines))
      && (total.NoTotal? && matching ==> total.failure.InvalidInput?)
      && (total.NoTotal? && CartValue(lines) <= MAX_INT64 ==> total.failure.CartChanged?)
  {
    if lines != [] {
      var init, last := lines[..|lines| - 1], lines[|lines| - 1];
      TotalIsExact(init, products);
      assert lines == init + [last];
      CartValueAppend(init, last);
    }
  }

  /** The loop may stop at the first failure. */
  lemma {:induction false} FailureStays(lines: seq<CartLine>, i: nat, products: map<Id, Product>)
    requires i <= |lines| && TotalOf(lines[..i], products).NoTotal?
    ensures TotalOf(lines, products) == TotalOf(lines[..i], products)
    decreases |lines| - i
  {
    if i == |lines| {
      assert lines[..i] == lines;
    } else {
      assert lines[..i + 1][..i] == lines[..i];
      FailureStays(lines, i + 1, products);
    }
  }

  /** The second loop of `PlaceOrder`. Every operation stays in 64 bits; when all lines match the catalog, the
      guards stop the loop exactly when the mathematical total does not fit. */
  method AddUp(sorted: seq<CartLine>, products: map<Id, Product>) returns (total: Total)
    requires forall line :: line in sorted ==> GoodCartLine(line)
    ensures total == TotalOf(sorted, products)
    ensures total.Total? <==> (forall line :: line in sorted ==> Matches(line, products)) && CartValue(sorted) <= MAX_INT64
    ensures total.Total? ==> total.subtotal as int == CartValue(sorted)
  {
    TotalIsExact(sorted, products);
    var subtotal: Int64 := 0;
    for i := 0 to |sorted|
      invariant 0 <= subtotal && subtotal as int == CartValue(sorted[..i])
      invariant TotalOf(sorted[..i], products) == Total(subtotal)
    {
      var line := sorted[i];
      assert line in sorted;
      NextTotal(sorted, i, products);
      if !Matches(line, products) {
        return NoTotal(CartChanged);
      }
      var price, quantity := products[line.productId].unitPrice, line.quantity as Int64;
      DivisionGuardIsExact(line.expectedUnitPrice, line.quantity);
      if price > 0x7fff_ffff_ffff_ffff / quantity {
        return NoTotal(InvalidInput);
      }
      var lineTotal := price * quantity;
      if subtotal > 0x7fff_ffff_ffff_ffff - lineTotal {
        return NoTotal(InvalidInput);
      }
      subtotal := subtotal + lineTotal;
    }
    assert sorted[..|sorted|] == sorted;
    return Total(subtotal);
  }

  /** What the line at `i` does to the total of the lines before it. */
  lemma NextTotal(lines: seq<CartLine>, i: nat, products: map<Id, Product>)
    requires i < |lines| && TotalOf(lines[..i], products).Total?
    ensures CartValue(lines[..i + 1]) == CartValue(lines[..i]) + LineValue(lines[i])
    ensures !Matches(lines[i], products) ==> TotalOf(lines, products) == NoTotal(CartChanged)
    ensures Matches(lines[i], products) && CartValue(lines[..i + 1]) > MAX_INT64 ==>
      TotalOf(lines, products) == NoTotal(InvalidInput)
    ensures Matches(lines[i], products) && CartValue(lines[..i + 1]) <= MAX_INT64 ==>
      TotalOf(lines[..i + 1], products) == Total(CartValue(lines[..i + 1]) as Int64)
  {
    assert lines[..i + 1][..i] == lines[..i];
    assert lines[..i + 1] == lines[..i] + [lines[i]];
    CartValueAppend(lines[..i], lines[i]);
    if TotalOf(lines[..i + 1], products).NoTotal? {
      FailureStays(lines, i + 1, products);
    }
  }

  // ----- The canonical payload -----

  function IndexOf(lines: seq<CartLine>): map<Id, CartLine>
    requires DistinctCartProducts(lines)
  {
    map line | line in lines :: line.productId := line
  }

  ghost function CanonicalLines(lines: seq<CartLine>): (sorted: seq<CartLine>)
    requires DistinctCartProducts(lines)
    ensures InProductOrder(lines, sorted)
  {
    SortedLinesAreInOrder(lines, IndexOf(lines));
    Pick(IndexOf(lines), Sorted(IndexOf(lines).Keys))
  }

  function PayloadLineOf(line: CartLine): PayloadLine {
    PayloadLine(line.productId, if line.quantity >= 0 then line.quantity else 0,
                if line.expectedUnitPrice >= 0 then line.expectedUnitPrice else 0)
  }

  function PayloadLines(lines: seq<CartLine>): (payload: seq<PayloadLine>)
    ensures |payload| == |lines| && forall i :: 0 <= i < |lines| ==> payload[i] == PayloadLineOf(lines[i])
  {
    seq(|lines|, i requires 0 <= i < |lines| => PayloadLineOf(lines[i]))
  }

  ghost function PayloadOf(cart: Cart): CheckoutPayload
    requires ValidCart(cart)
  {
    CheckoutPayload(cart.customerId, cart.address, cart.notes, PayloadLines(CanonicalLines(cart.lines)))
  }

  /** The loop of `checkoutFingerprint`. */
  method BuildPayload(sorted: seq<CartLine>) returns (lines: seq<PayloadLine>)
    requires forall line :: line in sorted ==> GoodCartLine(line)
    ensures lines == PayloadLines(sorted)
  {
    lines := [];
    for i := 0 to |sorted|
      invariant lines == PayloadLines(sorted[..i])
    {
      var line := sorted[i];
      assert line in sorted;
      lines := lines + [PayloadLine(line.productId, line.quantity, line.expectedUnitPrice)];
    }
    assert sorted[..|sorted|] == sorted;
  }

  /** `checkoutFingerprint`, up to the encoding and the hash. */
  method CheckoutFingerprint(cart: Cart, sorted: seq<CartLine>) returns (payload: CheckoutPayload)
    requires ValidCart(cart) && sorted == CanonicalLines(cart.lines)
    ensures payload == PayloadOf(cart)
  {
    var lines := BuildPayload(sorted);
    payload := CheckoutPayload(cart.customerId, cart.address, cart.notes, lines);
  }

  lemma PayloadLinesAreInjective(xs: seq<CartLine>, ys: seq<CartLine>)
    requires PayloadLines(xs) == PayloadLines(ys)
    requires forall line :: line in xs || line in ys ==> GoodCartLine(line)
    ensures xs == ys
  {
    assert |xs| == |PayloadLines(xs)| == |PayloadLines(ys)| == |ys|;
    forall i | 0 <= i < |xs|
      ensures xs[i] == ys[i]
    {
      assert PayloadLines(xs)[i] == PayloadLines(ys)[i];
      assert xs[i] in xs && ys[i] in ys;
    }
  }

  /** Two valid carts have the same payload exactly when they come from the same customer, go to the same address
      with the same notes, and hold the same set of lines. */
  lemma PayloadIdentifiesCart(c: Cart, d: Cart)
    requires ValidCart(c) && ValidCart(d)
    ensures PayloadOf(c) == PayloadOf(d) <==>
      && c.customerId == d.customerId && c.address == d.address && c.notes == d.notes
      && forall line :: line in c.lines <==> line in d.lines
  {
    var xs, ys := CanonicalLines(c.lines), CanonicalLines(d.lines);
    if forall line :: line in c.lines <==> line in d.lines {
      IncreasingLinesAreUnique(xs, ys);
    }
    if PayloadLines(xs) == PayloadLines(ys) {
      PayloadLinesAreInjective(xs, ys);
    }
  }

  // ----- The draft -----

  /** What the identifier generator and the clock supply for one order. */
  datatype Supply = Supply(orderId: Id, eventId: Id, operationId: Id, lineIds: seq<Id>, now: Instant)

  ghost predicate ValidSupply(supply: Supply, lines: nat) {
    && supply.orderId != NIL && supply.eventId != NIL && supply.operationId != NIL && supply.now != 0
    && lines <= |supply.lineIds| && NoRepeats(supply.lineIds) && NIL !in supply.lineIds
  }

  function OrderLineOf(line: CartLine, lineId: Id): OrderLine {
    var payload := PayloadLineOf(line);
    OrderLine(lineId, line.productId, payload.expectedUnitPrice, payload.quantity, LineValue(line))
  }

  function OrderLines(sorted: seq<CartLine>, lineIds: seq<Id>): (lines: seq<OrderLine>)
    requires |sorted| <= |lineIds|
    ensures |lines| == |sorted| && forall i :: 0 <= i < |sorted| ==> lines[i] == OrderLineOf(sorted[i], lineIds[i])
  {
    seq(|sorted|, i requires 0 <= i < |sorted| => OrderLineOf(sorted[i], lineIds[i]))
  }

  ghost function DraftOf(cart: Cart, supply: Supply): Draft
    requires ValidCart(cart) && |cart.lines| <= |supply.lineIds|
  {
    CanonicalCount(cart.lines);
    Draft(supply.orderId, cart.checkoutId, PayloadOf(cart), cart.customerId, supply.eventId, supply.operationId,
          supply.now, OrderLines(CanonicalLines(cart.lines), supply.lineIds))
  }

  lemma CanonicalCount(lines: seq<CartLine>)
    requires DistinctCartProducts(lines)
    ensures |CanonicalLines(lines)| == |lines|
  {
    OrderIsPermutation(lines, CanonicalLines(lines));
    assert |multiset(CanonicalLines(lines))| == |multiset(lines)|;
  }

  /** Every draft the service builds is a request the adapter accepts. */
  lemma DraftIsValid(cart: Cart, supply: Supply)
    requires ValidCart(cart) && ValidSupply(supply, |cart.lines|)
    requires forall line :: line in cart.lines ==> line.productId != NIL
    ensures ValidDraft(DraftOf(cart, supply))
  {
    var sorted, lines := CanonicalLines(cart.lines), DraftOf(cart, supply).lines;
    CanonicalCount(cart.lines);
    ItemsAreLines(lines);
    var items := Items(lines);
    forall item | item in items
      ensures GoodLine(item)
    {
      var i :| 0 <= i < |items| && items[i] == item;
      assert sorted[i] in sorted && supply.lineIds[i] in supply.lineIds;
    }
  }

  lemma {:induction false} LineTotalsAddUp(sorted: seq<CartLine>, lineIds: seq<Id>)
    requires |sorted| <= |lineIds|
    ensures SumOf(OrderLines(sorted, lineIds), (line: OrderLine) => line.lineTotal) == CartValue(sorted)
  {
    if sorted != [] {
      var init := sorted[..|sorted| - 1];
      LineTotalsAddUp(init, lineIds);
      assert OrderLines(sorted, lineIds)[..|sorted| - 1] == OrderLines(init, lineIds);
    }
  }

  lemma CanonicalValue(lines: seq<CartLine>)
    requires DistinctCartProducts(lines)
    ensures CartValue(CanonicalLines(lines)) == CartValue(lines)
  {
    OrderIsPermutation(lines, CanonicalLines(lines));
    SumPermutation(CanonicalLines(lines), lines, (line: CartLine) => LineValue(line));
  }

  /** The subtotal is the sum of the order's line totals and of the cart's line values, in any order. */
  lemma TotalsAgree(cart: Cart, supply: Supply)
    requires ValidCart(cart) && |cart.lines| <= |supply.lineIds|
    ensures SumOf(DraftOf(cart, supply).lines, (line: OrderLine) => line.lineTotal) == CartValue(cart.lines)
  {
    CanonicalCount(cart.lines);
    LineTotalsAddUp(CanonicalLines(cart.lines), supply.lineIds);
    CanonicalValue(cart.lines);
  }

  /** Shuffling the cart changes nothing: same draft, same value. */
  lemma DraftIgnoresLineOrder(cart: Cart, shuffled: seq<CartLine>, supply: Supply)
    requires ValidCart(cart) && ValidCartLines(shuffled) && |cart.lines| <= |supply.lineIds|
    requires forall line :: line in cart.lines <==> line in shuffled
    ensures |shuffled| <= |supply.lineIds|
    ensures DraftOf(cart.(lines := shuffled), supply) == DraftOf(cart, supply)
    ensures CartValue(shuffled) == CartValue(cart.lines)
  {
    assert NoRepeats(cart.lines) && NoRepeats(shuffled);
    SameElementsSameBag(cart.lines, shuffled);
    assert |multiset(cart.lines)| == |multiset(shuffled)|;
    IncreasingLinesAreUnique(CanonicalLines(cart.lines), CanonicalLines(shuffled));
    SumPermutation(shuffled, cart.lines, (line: CartLine) => LineValue(line));
  }

  // ----- The service -----

  datatype Outcome = Refused(failure: Failure) | Answered(answer: Ordering.PlaceAnswer, draft: Draft, subtotal: Int64)

  ghost predicate AllMatch(cart: Cart, products: map<Id, Product>) {
    forall line :: line in cart.lines ==> Matches(line, products)
  }

  /** The carts that get past the service's own checks and reach the store. */
  ghost predicate Accepted(cart: Cart, products: map<Id, Product>) {
    ValidCart(cart) && AllMatch(cart, products) && CartValue(cart.lines) <= MAX_INT64
  }

  /** One call of the service on the ordering tables: its own checks first, then the store. */
  ghost function Call(t: Ordering.Tables, cart: Cart, products: map<Id, Product>, supply: Supply): (Ordering.Tables, Outcome)
    requires |cart.lines| <= |supply.lineIds|
  {
    if !ValidCart(cart) then (t, Refused(InvalidInput))
    else
      var total := TotalOf(CanonicalLines(cart.lines), products);
      if total.NoTotal? then (t, Refused(total.failure))
      else
        var (after, answer) := Ordering.Place(t, DraftOf(cart, supply));
        (after, Answered(answer, DraftOf(cart, supply), total.subtotal))
  }

  lemma CanonicalTotal(cart: Cart, products: map<Id, Product>)
    requires ValidCart(cart)
    ensures var total := TotalOf(CanonicalLines(cart.lines), products);
      && (total.Total? <==> AllMatch(cart, products) && CartValue(cart.lines) <= MAX_INT64)
      && (total.Total? ==> total.subtotal as int == CartValue(cart.lines))
      && (total.NoTotal? && AllMatch(cart, products) ==> total.failure.InvalidInput?)
      && (total.NoTotal? && CartValue(cart.lines) <= MAX_INT64 ==> total.failure.CartChanged?)
  {
    TotalIsExact(CanonicalLines(cart.lines), products);
    CanonicalValue(cart.lines);
  }

  /** A call reaches the store exactly when the cart is valid, matches the catalog and has a total that fits 64 bits;
      then its draft is one the adapter accepts and the subtotal is the mathematical total. Otherwise nothing
      changes, and a refused valid cart has changed or is too expensive. */
  lemma CallIsExact(t: Ordering.Tables, cart: Cart, products: map<Id, Product>, supply: Supply)
    requires ValidSupply(supply, |cart.lines|) && NIL !in products
    ensures var (after, outcome) := Call(t, cart, products, supply);
      && (outcome.Answered? <==> Accepted(cart, products))
      && (outcome.Answered? ==> ValidDraft(outcome.draft) && outcome.subtotal as int == CartValue(cart.lines))
      && (outcome.Refused? ==> after == t)
      && (outcome.Refused? && outcome.failure.CartChanged? ==> ValidCart(cart) && !AllMatch(cart, products))
      && (outcome.Refused? && ValidCart(cart) && outcome.failure.InvalidInput? ==> CartValue(cart.lines) > MAX_INT64)
  {
    if ValidCart(cart) {
      CanonicalTotal(cart, products);
      if Accepted(cart, products) {
        DraftIsValid(cart, supply);
      }
    }
  }

  /** An order of this cart: same checkout, customer and fingerprint. */
  predicate IsOrderOf(order: Ordering.Order, checkoutId: Id, customerId: Id, fingerprint: CheckoutPayload) {
    order.checkoutId == checkoutId && order.customerId == customerId && order.fingerprint == fingerprint
  }

  /** The contract promises that reusing a checkout identifier returns the same order. The catalog is consulted
      before the store, so the promise is kept if and only if every line still matches the catalog; otherwise the
      caller is told that the cart changed. The tables stay as they were in either case. */
  lemma ReuseReturnsTheOrderWhileTheCartMatches(
    t: Ordering.Tables, o: Id, cart: Cart, later: map<Id, Product>, supply: Supply)
    requires Ordering.CheckoutsUnique(t) && ValidCart(cart) && CartValue(cart.lines) <= MAX_INT64
    requires o in t.orders && IsOrderOf(t.orders[o], cart.checkoutId, cart.customerId, PayloadOf(cart))
    requires |cart.lines| <= |supply.lineIds|
    ensures var (after, outcome) := Call(t, cart, later, supply);
      && after == t
      && (outcome.Answered? && outcome.answer == Ordering.Placed(o, true) <==> AllMatch(cart, later))
      && (!AllMatch(cart, later) ==> outcome == Refused(CartChanged))
  {
    CanonicalTotal(cart, later);
    var draft := DraftOf(cart, supply);
    assert Ordering.CheckoutUsed(t, draft.checkoutId);
    assert Ordering.OrderOfCheckout(t, draft.checkoutId) == o;
  }

  const NO_TABLES := Ordering.Tables(map[], map[], map[], map[], [])

  /** One item at one peso, sold first at that price and then at one centavo more. */
  const EXAMPLE_CART := Cart(1, 2, "somewhere", "", [CartLine(7, 1, 100)])
  const EXAMPLE_PRICE := map[7 := Product(true, true, 100)]
  const CHANGED_PRICE := map[7 := Product(true, true, 101)]

  lemma ExampleIsAccepted()
    ensures ValidCart(EXAMPLE_CART) && CartValue(EXAMPLE_CART.lines) == 100
    ensures AllMatch(EXAMPLE_CART, EXAMPLE_PRICE) && !AllMatch(EXAMPLE_CART, CHANGED_PRICE)
  {
    var line := CartLine(7, 1, 100);
    CartValueAppend([], line);
    assert [] + [line] == EXAMPLE_CART.lines;
    assert !Matches(line, CHANGED_PRICE) && line in EXAMPLE_CART.lines;
  }

  /** An accepted cart on empty tables becomes the only order. */
  lemma FirstCallPlaces(cart: Cart, products: map<Id, Product>, supply: Supply)
    requires Accepted(cart, products) && |cart.lines| <= |supply.lineIds|
    ensures var (t, first) := Call(NO_TABLES, cart, products, supply);
      && first.Answered? && first.answer == Ordering.Placed(supply.orderId, false)
      && t.orders.Keys == {supply.orderId}
      && IsOrderOf(t.orders[supply.orderId], cart.checkoutId, cart.customerId, PayloadOf(cart))
  {
    CanonicalTotal(cart, products);
    Ordering.PlaceIsExact(NO_TABLES, DraftOf(cart, supply));
  }

  lemma RepeatAfterFirstCall(
    cart: Cart, products: map<Id, Product>, first: Supply, later: map<Id, Product>, second: Supply)
    requires Accepted(cart, products) && |cart.lines| <= |first.lineIds| && |cart.lines| <= |second.lineIds|
    ensures var t := Call(NO_TABLES, cart, products, first).0; var (after, again) := Call(t, cart, later, second);
      && after == t
      && (AllMatch(cart, later) ==> again.Answered? && again.answer == Ordering.Placed(first.orderId, true))
      && (!AllMatch(cart, later) ==> again == Refused(CartChanged))
  {
    FirstCallPlaces(cart, products, first);
    var t := Call(NO_TABLES, cart, products, first).0;
    assert first.orderId in t.orders.Keys;
    ReuseReturnsTheOrderWhileTheCartMatches(t, first.orderId, cart, later, second);
  }

  lemma ThreeCalls(cart: Cart, price: map<Id, Product>, later: map<Id, Product>, s: Supply, s': Supply, s'': Supply)
    requires Accepted(cart, price) && !AllMatch(cart, later)
    requires |cart.lines| <= |s.lineIds| && |cart.lines| <= |s'.lineIds| && |cart.lines| <= |s''.lineIds|
    ensures var (t, first) := Call(NO_TABLES, cart, price, s);
      && first.Answered? && first.answer == Ordering.Placed(s.orderId, false)
      && var again := Call(t, cart, price, s');
         && again.0 == t && again.1.Answered? && again.1.answer == Ordering.Placed(s.orderId, true)
         && Call(t, cart, later, s'') == (t, Refused(CartChanged))
  {
    FirstCallPlaces(cart, price, s);
    RepeatAfterFirstCall(cart, price, s, price, s');
    RepeatAfterFirstCall(cart, price, s, later, s'');
  }

  /** A checkout is placed, repeated, and repeated once more after its price has changed: it is given order 11, given
      order 11 again, and then refused. */
  lemma PriceChangeRefusesReuse()
    ensures var (t, first) := Call(NO_TABLES, EXAMPLE_CART, EXAMPLE_PRICE, Supply(11, 12, 13, [14], 1));
      && first.Answered? && first.answer == Ordering.Placed(11, false)
      && var again := Call(t, EXAMPLE_CART, EXAMPLE_PRICE, Supply(21, 22, 23, [24], 2));
         && again.0 == t && again.1.Answered? && again.1.answer == Ordering.Placed(11, true)
         && Call(t, EXAMPLE_CART, CHANGED_PRICE, Supply(31, 32, 33, [34], 3)) == (t, Refused(CartChanged))
  {
    ExampleIsAccepted();
    ThreeCalls(
      EXAMPLE_CART, EXAMPLE_PRICE, CHANGED_PRICE, Supply(11, 12, 13, [14], 1), Supply(21, 22, 23, [24], 2),
      Supply(31, 32, 33, [34], 3));
  }

  method BuildLines(sorted: seq<CartLine>, lineIds: seq<Id>) returns (lines: seq<OrderLine>)
    requires |sorted| <= |lineIds| && forall line :: line in sorted ==> GoodCartLine(line)
    ensures lines == OrderLines(sorted, lineIds)
    ensures forall i :: 0 <= i < |sorted| ==>
      && lines[i].id == lineIds[i] && lines[i].productId == sorted[i].productId
      && lines[i].quantity as int == sorted[i].quantity && lines[i].unitPrice as int == sorted[i].expectedUnitPrice
      && lines[i].lineTotal as int == sorted[i].expectedUnitPrice * sorted[i].quantity
  {
    lines := [];
    for i := 0 to |sorted|
      invariant lines == OrderLines(sorted[..i], lineIds)
    {
      var line := sorted[i];
      assert line in sorted;
      lines := lines +
        [OrderLine(lineIds[i], line.productId, line.expectedUnitPrice, line.quantity, line.expectedUnitPrice * line.quantity)];
    }
    assert sorted[..|sorted|] == sorted;
    forall i | 0 <= i < |sorted|
      ensures lines[i] == OrderLineOf(sorted[i], lineIds[i]) && GoodCartLine(sorted[i])
    {
      assert sorted[i] in sorted;
    }
  }

  class Service {
    const store: Ordering.Store

    constructor (store: Ordering.Store)
      ensures this.store == store
    {
      this.store := store;
    }

    /** `PlaceOrder`. */
    method PlaceOrder(cart: Cart, products: map<Id, Product>, supply: Supply) returns (outcome: Outcome)
      requires Ordering.Constrained(store.View())
      requires forall line :: line in cart.lines ==> line.expectedUnitPrice <= MAX_INT64
      requires |cart.lines| <= |supply.lineIds|
      modifies store
      ensures (store.View(), outcome) == old(Call(store.View(), cart, products, supply))
    {
      var refusal, draft, subtotal := Prepare(cart, products, supply);
      if refusal.Some? {
        return Refused(refusal.value);
      }
      var answer := store.PlaceOrder(draft);
      return Answered(answer, draft, subtotal);
    }
  }

  /** The part of `PlaceOrder` before the store: validation, totals, identifiers, fingerprint and draft. */
  method Prepare(cart: Cart, products: map<Id, Product>, supply: Supply)
    returns (refusal: Option<Failure>, draft: Draft, subtotal: Int64)
    requires forall line :: line in cart.lines ==> line.expectedUnitPrice <= MAX_INT64
    requires |cart.lines| <= |supply.lineIds|
    ensures !ValidCart(cart) ==> refusal == Some(InvalidInput)
    ensures ValidCart(cart) && TotalOf(CanonicalLines(cart.lines), products).NoTotal? ==>
      refusal == Some(TotalOf(CanonicalLines(cart.lines), products).failure)
    ensures ValidCart(cart) && TotalOf(CanonicalLines(cart.lines), products).Total? ==>
      refusal == None && draft == DraftOf(cart, supply)
      && subtotal == TotalOf(CanonicalLines(cart.lines), products).subtotal
  {
    draft, subtotal := Draft(0, 0, CheckoutPayload(0, "", "", []), 0, 0, 0, 0, []), 0;
    if |cart.lines| == 0 || |cart.lines| > 100 || |cart.address| == 0 || |cart.address| > 500 || |cart.notes| > 500 {
      return Some(InvalidInput), draft, subtotal;
    }
    var ok, requested, productIds := IndexCart(cart.lines);
    if !ok {
      return Some(InvalidInput), draft, subtotal;
    }
    var sorted := SortCart(cart.lines, requested, productIds);
    CanonicalCount(cart.lines);
    var total := AddUp(sorted, products);
    if total.NoTotal? {
      return Some(total.failure), draft, subtotal;
    }
    var lines := BuildLines(sorted, supply.lineIds);
    var fingerprint := CheckoutFingerprint(cart, sorted);
    draft := Draft(supply.orderId, cart.checkoutId, fingerprint, cart.customerId, supply.eventId,
                   supply.operationId, supply.now, lines);
    return None, draft, total.subtotal;
  }

  method SortCart(lines: seq<CartLine>, requested: map<Id, CartLine>, productIds: seq<Id>) returns (sorted: seq<CartLine>)
    requires DistinctCartProducts(lines) && Indexed(lines, requested) && productIds == Sorted(requested.Keys)
    ensures sorted == CanonicalLines(lines)
  {
    SortedLinesAreInOrder(lines, requested);
    sorted := Pick(requested, productIds);
    ProductOrderIsUnique(lines, sorted, CanonicalLines(lines));
  }

  /** Two callers that were given an order for one checkout asked for the same thing: same customer, address,
      notes and set of lines, and they were given the same order. */
  lemma OneCheckoutOneCart(
    states: seq<Protocol.System>, actions: seq<Protocol.Action>, i: nat, a: Id, b: Id, mine: Cart, yours: Cart)
    requires Protocol.IsRun(states, actions) && i < |states| && ValidCart(mine) && ValidCart(yours)
    requires a in states[i].callers && b in states[i].callers
    requires states[i].callers[a].draft.fingerprint == PayloadOf(mine)
    requires states[i].callers[b].draft.fingerprint == PayloadOf(yours)
    requires states[i].callers[a].draft.checkoutId == states[i].callers[b].draft.checkoutId
    requires states[i].callers[a].stage.Answered? && states[i].callers[a].stage.answer.Placed?
    requires states[i].callers[b].stage.Answered? && states[i].callers[b].stage.answer.Placed?
    ensures states[i].callers[a].stage.answer.orderId == states[i].callers[b].stage.answer.orderId
    ensures mine.customerId == yours.customerId && mine.address == yours.address && mine.notes == yours.notes
    ensures forall line :: line in mine.lines <==> line in yours.lines
  {
    ProtocolTheorems.CheckoutIsIdempotent(states, actions, i, a, b);
    PayloadIdentifiesCart(mine, yours);
  }
}
