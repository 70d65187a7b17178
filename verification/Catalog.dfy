/** The catalog store: numbered snapshots, their publication, and keyset pages over one snapshot. */
module Catalog {
  import opened Basics

  datatype Details = Details(
    name: string, description: string, price: int, categoryId: Id, categoryName: string, sourceUpdatedAt: Instant)

  datatype Product = Product(id: Id, details: Details, available: bool)

  datatype Row = Row(details: Details, image: Option<string>, available: bool)

  datatype Key = Key(revision: nat, id: Id)

  datatype Tables = Tables(rows: map<Key, Row>, current: nat)

  // ----- Which products can be stored -----

  /** `unicode.IsSpace`. */
  predicate IsSpace(c: char) {
    || '\t' <= c <= '\r' || c == ' ' || c == '\U{85}' || c == '\U{A0}' || c == '\U{1680}'
    || '\U{2000}' <= c <= '\U{200A}' || c == '\U{2028}' || c == '\U{2029}' || c == '\U{202F}' || c == '\U{205F}'
    || c == '\U{3000}'
  }

  predicate Blank(s: string) {
    forall c :: c in s ==> IsSpace(c)
  }

  /** `Product.Validate`. */
  predicate ValidProduct(p: Product) {
    !Blank(p.details.name) && !Blank(p.details.categoryName) && p.details.price >= 0 && p.details.sourceUpdatedAt != 0
  }

  /** `length(btrim(s))`. */
  function TrimmedLength(s: string): nat {
    if s == "" then 0
    else if s[0] == ' ' then TrimmedLength(s[1..])
    else if s[|s| - 1] == ' ' then TrimmedLength(s[..|s| - 1])
    else |s|
  }

  /** The table's length checks. */
  predicate Storable(p: Product) {
    && 1 <= TrimmedLength(p.details.name) <= 200 && 1 <= TrimmedLength(p.details.categoryName) <= 200
    && |p.details.description| <= 2000
  }

  // ----- Snapshots -----

  ghost predicate Has(t: Tables, revision: nat, id: Id) {
    Key(revision, id) in t.rows
  }

  /** Only the current snapshot and the one before it are kept, and the current one has every product. */
  ghost predicate Valid(t: Tables) {
    && (forall k :: k in t.rows ==> k.revision > 0 && (k.revision == t.current || k.revision + 1 == t.current))
    && (forall k :: k in t.rows ==> Has(t, t.current, k.id))
  }

  /** One snapshot, by product. */
  ghost function Revision(t: Tables, revision: nat): map<Id, Row> {
    map k | k in t.rows && k.revision == revision :: k.id := t.rows[k]
  }

  // ----- Publishing -----

  ghost predicate Lists(products: seq<Product>, id: Id) {
    exists i :: 0 <= i < |products| && products[i].id == id
  }

  ghost predicate DistinctProducts(products: seq<Product>) {
    forall i, j :: 0 <= i < j < |products| ==> products[i].id != products[j].id
  }

  ghost predicate Publishable(products: seq<Product>) {
    DistinctProducts(products) && forall p :: p in products ==> ValidProduct(p) && Storable(p)
  }

  ghost function ListedAs(products: seq<Product>, id: Id): (p: Product)
    requires Lists(products, id)
    ensures p in products && p.id == id
  {
    var i :| 0 <= i < |products| && products[i].id == id;
    products[i]
  }

  /** The image the product has had so far. */
  ghost function ImageOf(t: Tables, id: Id): Option<string> {
    if Has(t, t.current, id) then t.rows[Key(t.current, id)].image else None
  }

  /** A product in the new snapshot: as listed, with its old image; or as it was, but unavailable. */
  ghost function NextRow(t: Tables, products: seq<Product>, id: Id): Row
    requires Lists(products, id) || Has(t, t.current, id)
  {
    if Lists(products, id) then Row(ListedAs(products, id).details, ImageOf(t, id), ListedAs(products, id).available)
    else t.rows[Key(t.current, id)].(available := false)
  }

  ghost function Published(t: Tables, products: seq<Product>): Tables {
    var next := t.current + 1;
    var listed := set i | 0 <= i < |products| :: Key(next, products[i].id);
    var known := set k | k in t.rows && k.revision == t.current :: Key(next, k.id);
    var kept := set k | k in t.rows && k.revision == t.current;
    Tables(map k | k in listed + known + kept :: if k.revision == next then NextRow(t, products, k.id) else t.rows[k], next)
  }

  // ----- Pages -----

  datatype Entry = Entry(id: Id, row: Row)

  datatype Page = Page(products: seq<Entry>, revision: nat, nextAfter: Option<Id>)

  datatype PageResult = Found(page: Page) | SnapshotExpired

  /** The products of a snapshot after a cursor. */
  ghost function Following(view: map<Id, Row>, after: Option<Id>): set<Id> {
    set id | id in view && (after.None? || id > after.value)
  }

  ghost function Entries(view: map<Id, Row>, ids: seq<Id>): seq<Entry>
    requires forall id :: id in ids ==> id in view
  {
    seq(|ids|, i requires 0 <= i < |ids| => Entry(ids[i], view[ids[i]]))
  }

  lemma FollowingIsKnown(view: map<Id, Row>, after: Option<Id>)
    ensures forall id :: id in Sorted(Following(view, after)) ==> id in view
  {
    SortedIsIncreasing(Following(view, after));
    assert forall id :: id in Sorted(Following(view, after)) ==> id in Elements(Sorted(Following(view, after)));
  }

  /** The first `limit` products after the cursor, and a next cursor exactly when there are more. */
  ghost function PageOf(view: map<Id, Row>, limit: nat, after: Option<Id>, revision: nat): Page
    requires limit > 0
  {
    var ids := Sorted(Following(view, after));
    FollowingIsKnown(view, after);
    if |ids| > limit then Page(Entries(view, ids[..limit]), revision, Some(ids[limit - 1]))
    else Page(Entries(view, ids), revision, None)
  }

  ghost function Read(t: Tables, limit: nat, after: Option<Id>, snapshot: nat): PageResult
    requires limit > 0
  {
    var revision := if snapshot == 0 then t.current else snapshot;
    if Revision(t, revision) == map[] then SnapshotExpired
    else Found(PageOf(Revision(t, revision), limit, after, revision))
  }

  // ----- The store -----

  class Store {
    var rows: map<Key, Row>
    var current: nat

    ghost function View(): Tables
      reads this
    {
      Tables(rows, current)
    }

    /** `ReplaceSnapshot`: the new snapshot appears completely, or nothing changes. */
    method ReplaceSnapshot(products: seq<Product>) returns (ok: bool)
      requires Valid(View())
      modifies this
      ensures Valid(View()) && (ok <==> Publishable(products))
      ensures View() == if ok then Published(old(View()), products) else old(View())
    {
      var inserted: map<Key, Row>;
      ok, inserted := InsertListed(products);
      if ok {
        PublishedIsComplete(View(), products);
        PublishedIsValid(View(), products);
        var filled := CarryForward(inserted, current);
        rows, current := KeptFrom(filled, current), current + 1;
      }
    }

    /** The insert loop of `ReplaceSnapshot`. */
    method InsertListed(products: seq<Product>) returns (ok: bool, inserted: map<Key, Row>)
      requires Valid(View())
      ensures ok <==> Publishable(products)
      ensures ok ==> inserted == WithListed(View(), products)
    {
      inserted := rows;
      for i := 0 to |products|
        invariant Publishable(products[..i])
        invariant inserted == WithListed(View(), products[..i])
      {
        assert products[..i + 1] == products[..i] + [products[i]];
        ok, inserted := InsertOne(inserted, products[..i], products[i]);
        if !ok {
          PrefixFails(products, i);
          return false, inserted;
        }
      }
      assert products[..|products|] == products;
      return true, inserted;
    }

    /** One round of the insert loop, after `done`. */
    method InsertOne(inserted: map<Key, Row>, ghost done: seq<Product>, p: Product)
      returns (ok: bool, grown: map<Key, Row>)
      requires Valid(View()) && Publishable(done) && inserted == WithListed(View(), done)
      ensures ok <==> Publishable(done + [p])
      ensures ok ==> grown == WithListed(View(), done + [p])
    {
      assert p in done + [p];
      WithListedHas(View(), done, p.id);
      if !ValidProduct(p) || !Storable(p) {
        return false, inserted;
      }
      if Key(current + 1, p.id) in inserted {
        RepeatIsNotDistinct(done, p);
        return false, inserted;
      }
      InsertsOneMore(View(), done, p);
      var image := LatestImage(inserted, p.id);
      return true, inserted[Key(current + 1, p.id) := Row(p.details, image, p.available)];
    }

    /** `Products`. */
    method Products(limit: nat, after: Option<Id>, snapshot: nat) returns (result: PageResult)
      requires 1 <= limit <= 100
      ensures result == Read(View(), limit, after, snapshot)
      ensures result.Found? ==> result.page.revision == if snapshot == 0 then current else snapshot
    {
      var revision := if snapshot == 0 then current else snapshot;
      if !exists k :: k in rows && k.revision == revision {
        assert Revision(View(), revision) == map[];
        return SnapshotExpired;
      }
      assert Revision(View(), revision) != map[] by {
        var k :| k in rows && k.revision == revision;
        assert k.id in Revision(View(), revision);
      }
      var page := ReadPage(limit, after, revision);
      return Found(page);
    }

    /** The query for one row more than asked for, cut to a page. */
    method ReadPage(limit: nat, after: Option<Id>, revision: nat) returns (page: Page)
      requires 1 <= limit <= 100
      ensures page == PageOf(Revision(View(), revision), limit, after, revision)
    {
      ghost var view := Revision(View(), revision);
      var matching := set k | k in rows && k.revision == revision && (after.None? || k.id > after.value) :: k.id;
      assert matching == Following(view, after);
      FollowingIsKnown(view, after);
      var ids := Sorted(matching);
      var taken := if |ids| > limit + 1 then ids[..limit + 1] else ids;
      var products: seq<Entry> := [];
      for i := 0 to |taken|
        invariant products == Entries(view, taken[..i])
      {
        assert taken[i] in ids;
        products := products + [Entry(taken[i], rows[Key(revision, taken[i])])];
      }
      assert taken[..|taken|] == taken;
      if |products| > limit {
        products := products[..limit];
        assert products == Entries(view, ids[..limit]);
        return Page(products, revision, Some(products[limit - 1].id));
      }
      return Page(products, revision, None);
    }
  }

  /** Every product of the old snapshot that is not in the new one yet, as unavailable. */
  function CarryForward(rows: map<Key, Row>, current: nat): map<Key, Row> {
    rows + map k | k in rows && k.revision == current && Key(current + 1, k.id) !in rows ::
      Key(current + 1, k.id) := rows[k].(available := false)
  }

  /** The subquery on the latest image of a product. */
  method LatestImage(rows: map<Key, Row>, id: Id) returns (image: Option<string>)
    ensures image == LatestImageOf(rows, id)
  {
    if key :| key in rows && key.id == id
              && forall other :: other in rows && other.id == id ==> other.revision <= key.revision {
      assert IsLatest(rows, key);
      image := rows[key].image;
    } else {
      image := None;
      NoLatest(rows, id);
    }
  }

  ghost predicate IsLatest(rows: map<Key, Row>, key: Key) {
    key in rows && forall other :: other in rows && other.id == key.id ==> other.revision <= key.revision
  }

  ghost function LatestImageOf(rows: map<Key, Row>, id: Id): Option<string> {
    if exists key :: IsLatest(rows, key) && key.id == id then
      var key :| IsLatest(rows, key) && key.id == id;
      rows[key].image
    else None
  }

  lemma NoLatest(rows: map<Key, Row>, id: Id)
    requires forall key :: key in rows && key.id == id ==>
      exists other :: other in rows && other.id == id && other.revision > key.revision
    ensures !exists key :: IsLatest(rows, key) && key.id == id
  {
  }

  // ----- The steps of a publication -----

  /** The table after the insert loop has handled `done`. */
  ghost function WithListed(t: Tables, done: seq<Product>): map<Key, Row> {
    var listed := set i | 0 <= i < |done| :: Key(t.current + 1, done[i].id);
    map k | k in t.rows.Keys + listed :: if k in listed then NextRow(t, done, k.id) else t.rows[k]
  }

  lemma WithListedHas(t: Tables, done: seq<Product>, id: Id)
    requires Valid(t)
    ensures Key(t.current + 1, id) in WithListed(t, done) <==> Lists(done, id)
  {
  }

  lemma RepeatIsNotDistinct(done: seq<Product>, p: Product)
    requires Lists(done, p.id)
    ensures !DistinctProducts(done + [p])
  {
    var i :| 0 <= i < |done| && done[i].id == p.id;
    assert (done + [p])[i].id == (done + [p])[|done|].id;
  }

  lemma PrefixFails(products: seq<Product>, i: nat)
    requires i < |products| && !Publishable(products[..i + 1])
    ensures !Publishable(products)
  {
    if DistinctProducts(products) {
      var p :| p in products[..i + 1] && !(ValidProduct(p) && Storable(p));
      assert p in products;
    }
  }

  lemma PrefixIsPublishable(done: seq<Product>, p: Product)
    requires Publishable(done) && !Lists(done, p.id) && ValidProduct(p) && Storable(p)
    ensures Publishable(done + [p])
  {
  }

  /** While a product is being inserted its latest row is the one of the old snapshot. */
  lemma LatestIsOld(t: Tables, done: seq<Product>, id: Id)
    requires Valid(t) && !Lists(done, id)
    ensures LatestImageOf(WithListed(t, done), id) == ImageOf(t, id)
  {
  }

  lemma WithListedAt(t: Tables, done: seq<Product>, k: Key)
    ensures var rows := WithListed(t, done); var added := k.revision == t.current + 1 && Lists(done, k.id);
      && (k in rows <==> k in t.rows || added)
      && (k in rows ==> rows[k] == if added then NextRow(t, done, k.id) else t.rows[k])
  {
  }

  lemma ListsOneMore(done: seq<Product>, p: Product, id: Id)
    requires DistinctProducts(done + [p])
    ensures Lists(done + [p], id) <==> Lists(done, id) || id == p.id
    ensures Lists(done, id) ==> ListedAs(done + [p], id) == ListedAs(done, id)
    ensures Lists(done + [p], p.id) && ListedAs(done + [p], p.id) == p
  {
    var longer := done + [p];
    assert longer[|done|] == p;
    ListedOnce(longer, p, p.id);
    if Lists(done, id) {
      ListedOnce(longer, ListedAs(done, id), id);
    }
  }

  lemma WithOneMore(t: Tables, done: seq<Product>, p: Product)
    requires Publishable(done + [p]) && !Lists(done, p.id)
    ensures WithListed(t, done + [p]) ==
      WithListed(t, done)[Key(t.current + 1, p.id) := Row(p.details, ImageOf(t, p.id), p.available)]
  {
    var longer := WithListed(t, done + [p]);
    var updated := WithListed(t, done)[Key(t.current + 1, p.id) := Row(p.details, ImageOf(t, p.id), p.available)];
    forall k
      ensures (k in longer <==> k in updated) && (k in longer ==> longer[k] == updated[k])
    {
      WithListedAt(t, done, k);
      WithListedAt(t, done + [p], k);
      ListsOneMore(done, p, k.id);
    }
    SameRowsSameMap(longer, updated);
  }

  lemma InsertsOneMore(t: Tables, done: seq<Product>, p: Product)
    requires Valid(t) && Publishable(done) && !Lists(done, p.id) && ValidProduct(p) && Storable(p)
    ensures Publishable(done + [p])
    ensures WithListed(t, done + [p]) == WithListed(t, done)[
      Key(t.current + 1, p.id) := Row(p.details, LatestImageOf(WithListed(t, done), p.id), p.available)]
  {
    PrefixIsPublishable(done, p);
    LatestIsOld(t, done, p.id);
    WithOneMore(t, done, p);
  }

  lemma ListedOnce(products: seq<Product>, p: Product, id: Id)
    requires DistinctProducts(products) && p in products && p.id == id
    ensures Lists(products, id) && ListedAs(products, id) == p
  {
  }

  /** The keys of the new table, and their rows. */
  ghost predicate InNext(t: Tables, products: seq<Product>, k: Key) {
    || (k.revision == t.current + 1 && (Lists(products, k.id) || Has(t, t.current, k.id)))
    || (k.revision == t.current && k in t.rows)
  }

  ghost function ValueInNext(t: Tables, products: seq<Product>, k: Key): Row
    requires InNext(t, products, k)
  {
    if k.revision == t.current + 1 then NextRow(t, products, k.id) else t.rows[k]
  }

  lemma RowOfPublished(t: Tables, products: seq<Product>, k: Key)
    ensures var rows := Published(t, products).rows;
      (k in rows <==> InNext(t, products, k)) && (k in rows ==> rows[k] == ValueInNext(t, products, k))
  {
  }

  lemma CarriedAt(rows: map<Key, Row>, current: nat, k: Key)
    ensures var filled := CarryForward(rows, current);
      var added := k.revision == current + 1 && k !in rows && Key(current, k.id) in rows;
      && (k in filled <==> k in rows || added)
      && (k in filled ==> filled[k] == if added then rows[Key(current, k.id)].(available := false) else rows[k])
  {
  }

  lemma RowOfCarried(t: Tables, products: seq<Product>, k: Key)
    requires Valid(t)
    ensures var filled := CarryForward(WithListed(t, products), t.current);
      && (k in filled && k.revision >= t.current <==> InNext(t, products, k))
      && (InNext(t, products, k) ==> filled[k] == ValueInNext(t, products, k))
  {
    CarriedAt(WithListed(t, products), t.current, k);
    WithListedAt(t, products, k);
    WithListedAt(t, products, Key(t.current, k.id));
  }

  function KeptFrom(rows: map<Key, Row>, current: nat): map<Key, Row> {
    map k | k in rows && k.revision >= current :: rows[k]
  }

  lemma RowsAgree(t: Tables, products: seq<Product>, k: Key)
    requires Valid(t)
    ensures var rows := KeptFrom(CarryForward(WithListed(t, products), t.current), t.current);
      var published := Published(t, products).rows;
      (k in rows <==> k in published) && (k in rows ==> rows[k] == published[k])
  {
    RowOfCarried(t, products, k);
    RowOfPublished(t, products, k);
  }

  lemma PublishedIsComplete(t: Tables, products: seq<Product>)
    requires Valid(t)
    ensures Published(t, products).rows == KeptFrom(CarryForward(WithListed(t, products), t.current), t.current)
  {
    var rows := KeptFrom(CarryForward(WithListed(t, products), t.current), t.current);
    var published := Published(t, products).rows;
    forall k
      ensures (k in rows <==> k in published) && (k in rows ==> rows[k] == published[k])
    {
      RowsAgree(t, products, k);
    }
    SameRowsSameMap(rows, published);
  }

  lemma SameRowsSameMap(a: map<Key, Row>, b: map<Key, Row>)
    requires forall k :: (k in a <==> k in b) && (k in a ==> a[k] == b[k])
    ensures a == b
  {
  }

  lemma PublishedIsValid(t: Tables, products: seq<Product>)
    requires Valid(t)
    ensures Valid(Published(t, products))
  {
    var u := Published(t, products);
    forall k | k in u.rows
      ensures k.revision > 0 && (k.revision == u.current || k.revision + 1 == u.current) && Has(u, u.current, k.id)
    {
      RowOfPublished(t, products, k);
      RowOfPublished(t, products, Key(u.current, k.id));
    }
  }
}
