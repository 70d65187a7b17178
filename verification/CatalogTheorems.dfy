/** What publications keep, and what a reader pinned to one snapshot sees while they go on. */
module CatalogTheorems {
  import opened Basics
  import opened Catalog

  // ----- One publication -----

  /** The new snapshot is the source set with the images the products had, plus every other product known so far,
      unchanged but unavailable; the snapshot before it stays as it was; no other snapshot is kept. */
  lemma PublicationIsExact(t: Tables, products: seq<Product>, id: Id, revision: nat)
    requires Valid(t) && Publishable(products)
    ensures var u := Published(t, products); var view := Revision(u, u.current);
      && (id in view <==> Lists(products, id) || Has(t, t.current, id))
      && (forall p :: p in products && p.id == id ==>
            id in view && view[id].details == p.details && view[id].available == p.available)
      && (Has(t, t.current, id) && !Lists(products, id) ==>
            view[id] == t.rows[Key(t.current, id)].(available := false))
      && (Has(t, t.current, id) ==> view[id].image == t.rows[Key(t.current, id)].image)
      && Revision(u, t.current) == Revision(t, t.current)
      && (revision != t.current && revision != u.current ==> Revision(u, revision) == map[])
  {
    var u := Published(t, products);
    RowOfPublished(t, products, Key(u.current, id));
    RevisionAt(u, u.current, id);
    forall p | p in products && p.id == id
      ensures Lists(products, id) && ListedAs(products, id) == p
    {
      ListedOnce(products, p, id);
    }
    OldSnapshotStays(t, products);
    OtherSnapshotsGo(t, products, revision);
  }

  lemma RevisionAt(t: Tables, revision: nat, id: Id)
    ensures id in Revision(t, revision) <==> Has(t, revision, id)
    ensures Has(t, revision, id) ==> Revision(t, revision)[id] == t.rows[Key(revision, id)]
  {
  }

  lemma OldSnapshotStays(t: Tables, products: seq<Product>)
    ensures Revision(Published(t, products), t.current) == Revision(t, t.current)
  {
    var before, after := Revision(t, t.current), Revision(Published(t, products), t.current);
    forall id
      ensures (id in after <==> id in before) && (id in after ==> after[id] == before[id])
    {
      RowOfPublished(t, products, Key(t.current, id));
      RevisionAt(t, t.current, id);
      RevisionAt(Published(t, products), t.current, id);
    }
    assert after == before;
  }

  lemma OtherSnapshotsGo(t: Tables, products: seq<Product>, revision: nat)
    ensures revision != t.current && revision != t.current + 1 ==> Revision(Published(t, products), revision) == map[]
  {
  }

  // ----- Runs -----

  /** Images are edited outside the service. */
  datatype Event = Publish(products: seq<Product>) | EditImage(id: Id, image: Option<string>)

  ghost function Step(t: Tables, e: Event): Tables {
    match e
    case Publish(products) => if Publishable(products) then Published(t, products) else t
    case EditImage(id, image) =>
      t.(rows := map k | k in t.rows :: if k.id == id then t.rows[k].(image := image) else t.rows[k])
  }

  ghost predicate StepAt(states: seq<Tables>, events: seq<Event>, i: nat)
    requires i < |events| < |states|
  {
    states[i + 1] == Step(states[i], events[i])
  }

  ghost predicate IsRun(states: seq<Tables>, events: seq<Event>) {
    && |states| == |events| + 1 && states[0] == Tables(map[], 0)
    && forall i: nat :: i < |events| ==> StepAt(states, events, i)
  }

  lemma StepKeepsValid(t: Tables, e: Event)
    requires Valid(t)
    ensures Valid(Step(t, e)) && t.current <= Step(t, e).current <= t.current + 1
  {
    if e.Publish? {
      PublishedIsValid(t, e.products);
    }
  }

  /** In every reachable state only the last two snapshots exist, and the current one has every product. */
  lemma {:induction false} RunKeepsValid(states: seq<Tables>, events: seq<Event>, i: nat)
    requires IsRun(states, events) && i < |states|
    ensures Valid(states[i])
  {
    if i > 0 {
      RunKeepsValid(states, events, i - 1);
      assert StepAt(states, events, i - 1);
      StepKeepsValid(states[i - 1], events[i - 1]);
    }
  }

  ghost predicate Untouched(events: seq<Event>, i: nat, j: nat, id: Id)
    requires i <= j <= |events|
  {
    forall k :: i <= k < j && events[k].EditImage? ==> events[k].id != id
  }

  lemma StepKeepsProduct(t: Tables, e: Event, id: Id)
    requires Valid(t) && Has(t, t.current, id)
    ensures Has(Step(t, e), Step(t, e).current, id)
    ensures (e.EditImage? ==> e.id != id) ==> ImageOf(Step(t, e), id) == ImageOf(t, id)
  {
  }

  /** A product is never lost, and its image survives every publication. */
  lemma {:induction false} ProductsAndImagesSurvive(states: seq<Tables>, events: seq<Event>, i: nat, j: nat, id: Id)
    requires IsRun(states, events) && i <= j < |states| && Has(states[i], states[i].current, id)
    ensures Has(states[j], states[j].current, id)
    ensures Untouched(events, i, j, id) ==> ImageOf(states[j], id) == ImageOf(states[i], id)
    decreases j
  {
    if i < j {
      ProductsAndImagesSurvive(states, events, i, j - 1, id);
      RunKeepsValid(states, events, j - 1);
      assert StepAt(states, events, j - 1);
      StepKeepsProduct(states[j - 1], events[j - 1], id);
    }
  }

  // ----- A pinned snapshot -----

  ghost predicate OnlyPublishes(events: seq<Event>, i: nat, j: nat)
    requires i <= j <= |events|
  {
    forall k :: i <= k < j ==> events[k].Publish?
  }

  /** A snapshot survives exactly one publication after it: it is unchanged while it is the current one or the one
      before, and gone after that. */
  lemma {:induction false} SnapshotLastsOnePublication(states: seq<Tables>, events: seq<Event>, i: nat, j: nat)
    requires IsRun(states, events) && i <= j < |states| && OnlyPublishes(events, i, j)
    ensures states[i].current <= states[j].current
    ensures var v := states[i].current;
      && (states[j].current <= v + 1 ==> Revision(states[j], v) == Revision(states[i], v))
      && (states[j].current > v + 1 ==> Revision(states[j], v) == map[])
    decreases j
  {
    if i < j {
      var v := states[i].current;
      SnapshotLastsOnePublication(states, events, i, j - 1);
      RunKeepsValid(states, events, j - 1);
      assert StepAt(states, events, j - 1);
      var t := states[j - 1];
      if Publishable(events[j - 1].products) {
        OldSnapshotStays(t, events[j - 1].products);
        OtherSnapshotsGo(t, events[j - 1].products, v);
      }
    }
  }

  // ----- Walking a snapshot page by page -----

  /** How the walk of a client ends: with its last page, told that the snapshot is gone, or out of reads. */
  datatype WalkEnd = Done(pages: seq<Page>) | Expired | Unfinished

  /** A client that follows the cursors until there is none, each page read from the tables of its moment. */
  ghost function Followed(tables: seq<Tables>, limit: nat, snapshot: nat, after: Option<Id>): WalkEnd
    requires limit > 0
    decreases |tables|
  {
    if tables == [] then Unfinished
    else
      match Read(tables[0], limit, after, snapshot)
      case SnapshotExpired => Expired
      case Found(page) =>
        if page.nextAfter.None? then Done([page])
        else
          var rest := Followed(tables[1..], limit, snapshot, page.nextAfter);
          if rest.Done? then Done([page] + rest.pages) else rest
  }

  ghost function Collected(pages: seq<Page>): seq<Entry> {
    if pages == [] then [] else pages[0].products + Collected(pages[1..])
  }

  ghost function AllEntries(view: map<Id, Row>): seq<Entry> {
    FollowingIsKnown(view, None);
    assert Following(view, None) == view.Keys;
    Entries(view, Sorted(view.Keys))
  }

  /** The cursor stands at position `m` of the snapshot's identifiers. */
  ghost predicate StandsAt(ids: seq<Id>, after: Option<Id>, m: nat) {
    m <= |ids| && (if m == 0 then after.None? else after == Some(ids[m - 1]))
  }

  lemma FollowingIsSuffix(view: map<Id, Row>, after: Option<Id>, m: nat)
    requires StandsAt(Sorted(view.Keys), after, m)
    ensures Sorted(Following(view, after)) == Sorted(view.Keys)[m..]
  {
    var ids, rest := Sorted(view.Keys), Sorted(Following(view, after));
    SortedIsIncreasing(view.Keys);
    SortedIsIncreasing(Following(view, after));
    forall id
      ensures id in rest <==> id in ids[m..]
    {
      SortedHas(Following(view, after), id);
      SortedHas(view.Keys, id);
      InSuffix(ids, after, m, id);
    }
    IncreasingIsUnique(rest, ids[m..]);
  }

  lemma InSuffix(ids: seq<Id>, after: Option<Id>, m: nat, id: Id)
    requires Increasing(ids) && StandsAt(ids, after, m)
    ensures id in ids[m..] <==> id in ids && (after.None? || id > after.value)
  {
  }

  lemma PageIsSlice(view: map<Id, Row>, limit: nat, after: Option<Id>, snapshot: nat, m: nat)
    requires limit > 0 && StandsAt(Sorted(view.Keys), after, m)
    ensures var ids, page, all := Sorted(view.Keys), PageOf(view, limit, after, snapshot), AllEntries(view);
      && |all| == |ids|
      && (m + limit < |ids| ==> page.products == all[m..m + limit] && StandsAt(ids, page.nextAfter, m + limit))
      && (m + limit >= |ids| ==> page.products == all[m..])
      && (page.nextAfter.Some? <==> m + limit < |ids|)
  {
    var ids := Sorted(view.Keys);
    FollowingIsSuffix(view, after, m);
    FollowingIsKnown(view, after);
    if m + limit < |ids| {
      assert ids[m..][..limit] == ids[m..m + limit];
    }
  }

  lemma OnePageLess(pages: nat, limit: nat)
    ensures (pages + 1) * limit == limit + pages * limit
  {
  }

  /** A walk over a view that does not change, from position `m` on: it has the rest of the entries, in as many
      pages as they fill, or there were not enough reads for that. */
  ghost predicate EndsExactly(end: WalkEnd, times: nat, limit: nat, view: map<Id, Row>, m: nat) {
    var all := AllEntries(view);
    && m <= |all|
    && !end.Expired?
    && (end.Done? <==> |all| - m <= times * limit)
    && (end.Done? ==> Collected(end.pages) == all[m..] && FillsPages(|all| - m, |end.pages|, limit))
  }

  ghost predicate FillsPages(entries: int, pages: nat, limit: nat) {
    pages > 0 && (pages - 1) * limit < entries <= pages * limit
  }

  lemma {:induction false} WalkFrom(
    view: map<Id, Row>, tables: seq<Tables>, limit: nat, snapshot: nat, after: Option<Id>, m: nat)
    requires limit > 0 && snapshot > 0 && m < |Sorted(view.Keys)| && StandsAt(Sorted(view.Keys), after, m)
    requires forall k :: 0 <= k < |tables| ==> Revision(tables[k], snapshot) == view
    ensures EndsExactly(Followed(tables, limit, snapshot, after), |tables|, limit, view, m)
    decreases |tables|
  {
    PageIsSlice(view, limit, after, snapshot, m);
    if tables != [] {
      var page := PageOf(view, limit, after, snapshot);
      NonemptyIsFound(view, tables[0], limit, after, snapshot, m);
      if page.nextAfter.None? {
        LastPageEnds(page, |tables|, limit, view, m);
      } else {
        WalkFrom(view, tables[1..], limit, snapshot, page.nextAfter, m + limit);
        FirstPageFirst(page, Followed(tables[1..], limit, snapshot, page.nextAfter), |tables| - 1, limit, view, m);
      }
    }
  }

  lemma NonemptyIsFound(view: map<Id, Row>, t: Tables, limit: nat, after: Option<Id>, snapshot: nat, m: nat)
    requires limit > 0 && snapshot > 0 && m < |Sorted(view.Keys)| && Revision(t, snapshot) == view
    ensures Read(t, limit, after, snapshot) == Found(PageOf(view, limit, after, snapshot))
  {
    SortedHas(view.Keys, Sorted(view.Keys)[m]);
  }

  lemma LastPageEnds(page: Page, times: nat, limit: nat, view: map<Id, Row>, m: nat)
    requires times > 0 && limit > 0 && m < |AllEntries(view)| <= m + limit && page.products == AllEntries(view)[m..]
    ensures EndsExactly(Done([page]), times, limit, view, m)
  {
    assert Collected([page]) == page.products + Collected([]);
    OnePageLess(times - 1, limit);
  }

  lemma FirstPageFirst(page: Page, end: WalkEnd, times: nat, limit: nat, view: map<Id, Row>, m: nat)
    requires limit > 0 && EndsExactly(end, times, limit, view, m + limit) && m + limit < |AllEntries(view)|
    requires page.products == AllEntries(view)[m..m + limit]
    ensures EndsExactly(if end.Done? then Done([page] + end.pages) else end, times + 1, limit, view, m)
  {
    var all := AllEntries(view);
    OnePageLess(times, limit);
    if end.Done? {
      assert ([page] + end.pages)[1..] == end.pages;
      assert all[m..] == all[m..m + limit] + all[m + limit..];
      OnePageLess(|end.pages| - 1, limit);
      OnePageLess(|end.pages|, limit);
    }
  }

  /** A walk pinned to a nonempty snapshot that overlaps at most one publication is never told that the snapshot
      expired. It comes to an end exactly when it has as many reads as the snapshot fills pages, and has then
      collected exactly the snapshot, in the order of the product identifiers. */
  lemma PinnedWalkIsExact(states: seq<Tables>, events: seq<Event>, moments: seq<nat>, tables: seq<Tables>, limit: nat)
    requires IsRun(states, events) && limit > 0 && |moments| == |tables| && moments != []
    requires forall k :: 0 <= k < |moments| ==> moments[0] <= moments[k] < |states| && tables[k] == states[moments[k]]
    requires forall k :: 0 <= k < |moments| ==> OnlyPublishes(events, moments[0], moments[k])
    requires forall k :: 0 <= k < |moments| ==> states[moments[k]].current <= states[moments[0]].current + 1
    requires Revision(states[moments[0]], states[moments[0]].current) != map[]
    ensures var start := states[moments[0]]; var view := Revision(start, start.current);
      var end := Followed(tables, limit, start.current, None);
      && !end.Expired?
      && (end.Done? <==> |view| <= |moments| * limit)
      && (end.Done? ==> Collected(end.pages) == AllEntries(view) && FillsPages(|view|, |end.pages|, limit))
  {
    var start := states[moments[0]];
    var view := Revision(start, start.current);
    RunKeepsValid(states, events, moments[0]);
    forall k | 0 <= k < |tables|
      ensures Revision(tables[k], start.current) == view
    {
      SnapshotLastsOnePublication(states, events, moments[0], moments[k]);
    }
    var id :| id in view;
    SortedIsIncreasing(view.Keys);
    assert id in Elements(Sorted(view.Keys));
    WalkFrom(view, tables, limit, start.current, None, 0);
    PageIsSlice(view, limit, None, start.current, 0);
    assert AllEntries(view)[0..] == AllEntries(view);
  }

  /** After a second publication the pinned reader is told that its snapshot is gone. */
  lemma TwoPublicationsExpire(states: seq<Tables>, events: seq<Event>, i: nat, j: nat, limit: nat, after: Option<Id>)
    requires IsRun(states, events) && i <= j < |states| && OnlyPublishes(events, i, j) && limit > 0
    requires states[i].current > 0 && states[j].current > states[i].current + 1
    ensures Read(states[j], limit, after, states[i].current) == SnapshotExpired
  {
    SnapshotLastsOnePublication(states, events, i, j);
  }
}
