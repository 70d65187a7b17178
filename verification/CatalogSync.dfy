/** Copying the POS catalog page by page: the adapter's keyset page and the loop that follows its cursors. */
module CatalogSync {
  import opened Basics
  import opened Catalog

  /** The adapter's answer; `next` is the nil identifier on the last page. */
  datatype SourcePage = SourcePage(products: seq<Product>, next: Id)

  /** The POS items joined with their categories, by identifier. */
  ghost predicate WellKeyed(table: map<Id, Product>) {
    forall id :: id in table ==> table[id].id == id < UUID_LIMIT
  }

  // ----- The adapter's page -----

  /** The page takes the identifiers after the cursor in order, none skipped, and says whether there are more. */
  ghost predicate IsPage(table: map<Id, Product>, limit: nat, after: Id, page: SourcePage) {
    && (forall i, j :: 0 <= i < j < |page.products| ==> page.products[i].id < page.products[j].id)
    && (forall p :: p in page.products ==> p.id in table && table[p.id] == p && p.id > after)
    && |page.products| <= limit
    && (page.next == NIL ==> forall id :: id in table && id > after ==> Lists(page.products, id))
    && (page.next != NIL ==>
          && page.products != [] && page.next == page.products[|page.products| - 1].id
          && |page.products| == limit
          && (forall id :: id in table && after < id <= page.next ==> Lists(page.products, id))
          && (exists id :: id in table && id > page.next))
  }

  /** The identifiers after the cursor, in order. */
  ghost predicate IsQuery(table: map<Id, Product>, after: Id, ids: seq<Id>) {
    Increasing(ids) && forall id :: id in ids <==> id in table && id > after
  }

  ghost predicate RowsOf(table: map<Id, Product>, ids: seq<Id>, products: seq<Product>) {
    |products| <= |ids| && forall i :: 0 <= i < |products| ==> ids[i] in table && products[i] == table[ids[i]]
  }

  lemma RowsAreInOrder(table: map<Id, Product>, after: Id, ids: seq<Id>, products: seq<Product>)
    requires WellKeyed(table) && IsQuery(table, after, ids) && RowsOf(table, ids, products)
    ensures forall i :: 0 <= i < |products| ==> products[i].id == ids[i]
    ensures forall i, j :: 0 <= i < j < |products| ==> products[i].id < products[j].id
    ensures forall p :: p in products ==> p.id in table && table[p.id] == p && p.id > after
  {
  }

  lemma FullPage(table: map<Id, Product>, limit: nat, after: Id, ids: seq<Id>, products: seq<Product>)
    requires WellKeyed(table) && IsQuery(table, after, ids) && RowsOf(table, ids, products)
    requires 1 <= limit == |products| < |ids|
    ensures IsPage(table, limit, after, SourcePage(products, products[limit - 1].id))
  {
    RowsAreInOrder(table, after, ids, products);
    assert ids[limit] in ids && ids[limit - 1] in ids;
    forall id | id in table && after < id <= products[limit - 1].id
      ensures Lists(products, id)
    {
      assert id in ids;
      var i :| 0 <= i < |ids| && ids[i] == id;
      assert products[i].id == id;
    }
  }

  lemma LastPage(table: map<Id, Product>, limit: nat, after: Id, ids: seq<Id>, products: seq<Product>)
    requires WellKeyed(table) && IsQuery(table, after, ids) && RowsOf(table, ids, products)
    requires |products| == |ids| <= limit
    ensures IsPage(table, limit, after, SourcePage(products, NIL))
  {
  }

  /** `Catalog`: one row more than asked for tells whether there is a next page. */
  method SourcePageOf(table: map<Id, Product>, limit: nat, after: Id) returns (page: SourcePage)
    requires WellKeyed(table) && 1 <= limit <= 100
    ensures IsPage(table, limit, after, page)
  {
    var matching := set id | id in table && id > after;
    var ids := Sorted(matching);
    SortedIsIncreasing(matching);
    assert forall id :: id in ids <==> id in Elements(ids);
    var products: seq<Product> := [];
    while |products| < limit + 1 && |products| < |ids|
      invariant |products| <= limit + 1 && RowsOf(table, ids, products)
    {
      assert ids[|products|] in ids;
      products := products + [table[ids[|products|]]];
    }
    if |products| > limit {
      FullPage(table, limit, after, ids, products[..limit]);
      page := SourcePage(products[..limit], products[limit - 1].id);
    } else {
      LastPage(table, limit, after, ids, products);
      page := SourcePage(products, NIL);
    }
  }

  // ----- The loop -----

  datatype SyncFailure = InvalidProduct | ProductRepeated | CursorRepeated

  datatype Copy = Copied(products: seq<Product>) | NotCopied(failure: SyncFailure)

  ghost predicate InIdOrder(products: seq<Product>) {
    forall i, j :: 0 <= i < j < |products| ==> products[i].id < products[j].id
  }

  ghost predicate UpTo(products: seq<Product>, limit: Id) {
    forall p :: p in products ==> p.id <= limit
  }

  /** The product was on the POS table that answered the request `k`. */
  ghost predicate SeenAt(tables: nat -> map<Id, Product>, p: Product, k: nat) {
    p.id in tables(k) && tables(k)[p.id] == p
  }

  ghost predicate Seen(tables: nat -> map<Id, Product>, products: seq<Product>) {
    forall p :: p in products ==> exists k: nat :: SeenAt(tables, p, k)
  }

  /** Every product up to `limit` that was there at each request is among the products. */
  ghost predicate Complete(tables: nat -> map<Id, Product>, products: seq<Product>, limit: Id) {
    forall id :: NIL < id <= limit && (forall k: nat :: id in tables(k)) ==> Lists(products, id)
  }

  ghost predicate AllValid(tables: nat -> map<Id, Product>) {
    forall k: nat, id :: id in tables(k) ==> ValidProduct(tables(k)[id])
  }

  ghost function IdsOf(products: seq<Product>): set<Id> {
    set p | p in products :: p.id
  }

  /** One page of the loop: validates every product and refuses one that was already copied. */
  method AddPage(page: seq<Product>, seenBefore: set<Id>, before: seq<Product>, ghost after: Id)
    returns (failure: Option<SyncFailure>, seen: set<Id>, products: seq<Product>)
    requires seenBefore == IdsOf(before) && InIdOrder(before) && UpTo(before, after)
    requires InIdOrder(page) && forall p :: p in page ==> p.id > after
    ensures failure.Some? ==> failure.value.InvalidProduct? && exists p :: p in page && !ValidProduct(p)
    ensures failure.None? ==> products == before + page && seen == IdsOf(products) && InIdOrder(products)
    ensures failure.None? ==> forall p :: p in page ==> ValidProduct(p)
  {
    seen, products := seenBefore, before;
    for i := 0 to |page|
      invariant products == before + page[..i] && seen == IdsOf(products)
      invariant forall j :: 0 <= j < i ==> ValidProduct(page[j])
    {
      var p := page[i];
      assert p in page;
      if !ValidProduct(p) {
        return Some(InvalidProduct), seen, products;
      }
      assert p.id !in seen by {
        NotSeenYet(before, page, i, after);
      }
      if p.id in seen {
        return Some(ProductRepeated), seen, products;
      }
      OneMoreId(products, p);
      seen, products := seen + {p.id}, products + [p];
      assert page[..i + 1] == page[..i] + [p];
    }
    assert page[..|page|] == page;
    AppendKeepsOrder(before, page, after);
    return None, seen, products;
  }

  lemma NotSeenYet(before: seq<Product>, page: seq<Product>, i: nat, after: Id)
    requires i < |page| && UpTo(before, after) && InIdOrder(page) && forall p :: p in page ==> p.id > after
    ensures page[i].id !in IdsOf(before + page[..i])
  {
  }

  lemma OneMoreId(products: seq<Product>, p: Product)
    ensures IdsOf(products + [p]) == IdsOf(products) + {p.id}
  {
  }

  lemma AppendKeepsOrder(before: seq<Product>, page: seq<Product>, after: Id)
    requires InIdOrder(before) && UpTo(before, after) && InIdOrder(page) && forall p :: p in page ==> p.id > after
    ensures InIdOrder(before + page)
  {
  }

  lemma PageKeepsSeen(tables: nat -> map<Id, Product>, products: seq<Product>, page: seq<Product>, k: nat)
    requires Seen(tables, products) && forall p :: p in page ==> SeenAt(tables, p, k)
    ensures Seen(tables, products + page)
  {
  }

  /** The products after a page are complete up to wherever the page is. */
  lemma PageKeepsComplete(
    tables: nat -> map<Id, Product>, products: seq<Product>, page: seq<Product>, k: nat, after: Id, limit: Id)
    requires Complete(tables, products, after)
    requires forall id :: id in tables(k) && after < id <= limit ==> Lists(page, id)
    ensures Complete(tables, products + page, limit)
  {
    forall id | NIL < id <= limit && (forall j: nat :: id in tables(j))
      ensures Lists(products + page, id)
    {
      if id <= after {
        assert Lists(products, id);
        var i :| 0 <= i < |products| && products[i].id == id;
        assert (products + page)[i].id == id;
      } else {
        assert id in tables(k) && Lists(page, id);
        var i :| 0 <= i < |page| && page[i].id == id;
        assert (products + page)[|products| + i].id == id;
      }
    }
  }

  /** The loop of `Sync`, whatever happens to the POS items between its requests: it ends, no product and no cursor
      ever repeats, every copied product was on sale at some request, and none that was there at each request is
      missed; it fails only on an invalid product. */
  method CopySource(tables: nat -> map<Id, Product>) returns (copy: Copy)
    requires forall k: nat :: WellKeyed(tables(k))
    ensures copy.Copied? ==> InIdOrder(copy.products) && Seen(tables, copy.products)
    ensures copy.Copied? ==> Complete(tables, copy.products, UUID_LIMIT)
    ensures copy.Copied? ==> forall p :: p in copy.products ==> ValidProduct(p)
    ensures copy.NotCopied? ==> copy.failure.InvalidProduct? && !AllValid(tables)
  {
    var afterId, k := NIL, 0;
    var seenCursors: set<Id>, seenProducts: set<Id>, products: seq<Product> := {}, {}, [];
    while true
      invariant seenProducts == IdsOf(products) && InIdOrder(products) && UpTo(products, afterId)
      invariant Seen(tables, products) && Complete(tables, products, afterId)
      invariant forall p :: p in products ==> ValidProduct(p)
      invariant forall c :: c in seenCursors ==> c <= afterId
      invariant afterId < UUID_LIMIT
      decreases UUID_LIMIT - afterId
    {
      var table := tables(k);
      var page := SourcePageOf(table, 100, afterId);
      var failure;
      ghost var before := products;
      failure, seenProducts, products := AddPage(page.products, seenProducts, products, afterId);
      if failure.Some? {
        var p :| p in page.products && !ValidProduct(p);
        assert p.id in tables(k);
        return NotCopied(failure.value);
      }
      PageKeepsSeen(tables, before, page.products, k);
      if page.next == NIL {
        PageKeepsComplete(tables, before, page.products, k, afterId, UUID_LIMIT);
        return Copied(products);
      }
      PageKeepsComplete(tables, before, page.products, k, afterId, page.next);
      assert page.products[|page.products| - 1] in page.products;
      if page.next in seenCursors || page.next == afterId {
        return NotCopied(CursorRepeated);
      }
      seenCursors, afterId, k := seenCursors + {page.next}, page.next, k + 1;
    }
  }

  // ----- A fixed table -----

  /** The table's products in the order of their identifiers. */
  ghost function InOrder(table: map<Id, Product>): seq<Product> {
    var ids := Sorted(table.Keys);
    SortedIsIncreasing(table.Keys);
    assert forall id :: id in ids ==> id in Elements(ids);
    seq(|ids|, i requires 0 <= i < |ids| => table[ids[i]])
  }

  function Ids(products: seq<Product>): (ids: seq<Id>)
    ensures |ids| == |products| && forall i :: 0 <= i < |ids| ==> ids[i] == products[i].id
  {
    seq(|products|, i requires 0 <= i < |products| => products[i].id)
  }

  /** Products in order, all from the table and none of the table's missing, are the table in order. */
  lemma CopyOfFixedTable(tables: nat -> map<Id, Product>, table: map<Id, Product>, products: seq<Product>)
    requires (forall k: nat :: tables(k) == table) && WellKeyed(table) && NIL !in table
    requires InIdOrder(products) && Seen(tables, products) && Complete(tables, products, UUID_LIMIT)
    ensures products == InOrder(table)
  {
    var ids, sorted := Ids(products), Sorted(table.Keys);
    SortedIsIncreasing(table.Keys);
    assert forall id :: id in sorted <==> id in Elements(sorted);
    forall id
      ensures id in ids <==> id in sorted
    {
      if id in ids {
        var i :| 0 <= i < |ids| && ids[i] == id;
        assert products[i] in products;
      }
      if id in table {
        assert Lists(products, id);
        var i :| 0 <= i < |products| && products[i].id == id;
        assert ids[i] == id;
      }
    }
    IncreasingIsUnique(ids, sorted);
    forall i | 0 <= i < |products|
      ensures products[i] == InOrder(table)[i]
    {
      assert products[i] in products && ids[i] == sorted[i];
    }
  }

  // ----- The service -----

  class Service {
    const store: Store

    constructor (store: Store)
      ensures this.store == store
    {
      this.store := store;
    }

    /** `Sync`: copies the source and publishes it. A source that stands still is published exactly, in the order of
        its identifiers. */
    method Sync(tables: nat -> map<Id, Product>) returns (copy: Copy, ok: bool)
      requires Valid(store.View()) && forall k: nat :: WellKeyed(tables(k))
      modifies store
      ensures Valid(store.View())
      ensures ok <==> copy.Copied? && Publishable(copy.products)
      ensures store.View() == if ok then Published(old(store.View()), copy.products) else old(store.View())
      ensures copy.NotCopied? ==> copy.failure.InvalidProduct?
      ensures AllValid(tables) ==> copy.Copied?
      ensures copy.Copied? ==> DistinctProducts(copy.products) && Seen(tables, copy.products)
      ensures copy.Copied? ==> Complete(tables, copy.products, UUID_LIMIT)
    {
      copy := CopySource(tables);
      if copy.NotCopied? {
        return copy, false;
      }
      ok := store.ReplaceSnapshot(copy.products);
    }
  }

  /** The published snapshot of a fixed table of valid items with non-zero identifiers is that table, and the
      products that were known before and are gone from it stay as unavailable. */
  lemma FixedSourceIsPublished(
    t: Tables, tables: nat -> map<Id, Product>, table: map<Id, Product>, products: seq<Product>, id: Id)
    requires Valid(t) && (forall k: nat :: tables(k) == table) && WellKeyed(table) && NIL !in table
    requires InIdOrder(products) && Seen(tables, products) && Complete(tables, products, UUID_LIMIT)
    requires Publishable(products)
    ensures var view := Revision(Published(t, products), t.current + 1);
      && products == InOrder(table)
      && (id in view <==> id in table || Has(t, t.current, id))
      && (id in table ==> view[id].details == table[id].details && view[id].available == table[id].available)
      && (id in view && id !in table ==> !view[id].available)
  {
    CopyOfFixedTable(tables, table, products);
    RowOfPublished(t, products, Key(t.current + 1, id));
    if id in table {
      assert Lists(products, id);
      assert ListedAs(products, id) in products;
    } else if Lists(products, id) {
      assert ListedAs(products, id) in products;
    }
  }
}
