/** What readers of the catalog are served, from a first request without a snapshot on, and which products can be
    published. */
module CatalogMeaning {
  import opened Basics
  import opened Catalog
  import opened CatalogTheorems

  // ----- One read -----

  ghost predicate SomeProduct(t: Tables, revision: nat) {
    exists id :: Key(revision, id) in t.rows
  }

  ghost predicate After(after: Option<Id>, id: Id) {
    after.Some? ==> after.value < id
  }

  /** Rows of the snapshot after the cursor, in order. */
  ghost predicate AreRowsAfter(t: Tables, revision: nat, after: Option<Id>, entries: seq<Entry>) {
    && (forall i, j :: 0 <= i < j < |entries| ==> entries[i].id < entries[j].id)
    && (forall p :: p in entries ==>
          Key(revision, p.id) in t.rows && t.rows[Key(revision, p.id)] == p.row && After(after, p.id))
  }

  ghost predicate HasEntry(entries: seq<Entry>, id: Id) {
    exists p :: p in entries && p.id == id
  }

  /** No row after the cursor is missing, up to the next cursor if there is one. */
  ghost predicate LeavesNoneOut(t: Tables, revision: nat, after: Option<Id>, page: Page) {
    forall id: Id ::
      Key(revision, id) in t.rows && After(after, id) && (page.nextAfter.Some? ==> id <= page.nextAfter.value)
      ==> HasEntry(page.products, id)
  }

  /** At most `limit` rows of the snapshot after the cursor, in order and with none left out; there is a next cursor, the
      last entry of a full page, exactly when the snapshot goes on after it. */
  ghost predicate ServesNext(t: Tables, revision: nat, limit: nat, after: Option<Id>, page: Page)
    requires limit > 0
  {
    && page.revision == revision && |page.products| <= limit
    && AreRowsAfter(t, revision, after, page.products) && LeavesNoneOut(t, revision, after, page)
    && (page.nextAfter.Some? ==>
          && |page.products| == limit && page.nextAfter.value == page.products[limit - 1].id
          && exists id: Id :: Key(revision, id) in t.rows && id > page.nextAfter.value)
  }

  /** The entries of some identifiers of the snapshot after the cursor, in order. */
  lemma EntriesAreRows(t: Tables, revision: nat, after: Option<Id>, ids: seq<Id>)
    requires Increasing(ids) && forall id :: id in ids ==> id in Revision(t, revision) && After(after, id)
    ensures var entries := Entries(Revision(t, revision), ids);
      && |entries| == |ids| && AreRowsAfter(t, revision, after, entries)
      && (forall id :: id in ids ==> HasEntry(entries, id))
  {
    var entries := Entries(Revision(t, revision), ids);
    forall p | p in entries
      ensures Key(revision, p.id) in t.rows && t.rows[Key(revision, p.id)] == p.row && After(after, p.id)
    {
      var i :| 0 <= i < |entries| && entries[i] == p;
      assert ids[i] in ids;
      RevisionAt(t, revision, ids[i]);
    }
    forall id | id in ids
      ensures HasEntry(entries, id)
    {
      var i :| 0 <= i < |ids| && ids[i] == id;
      assert entries[i] in entries;
    }
  }

  /** Cutting the ordered identifiers leaves out only those after the last one taken. */
  lemma CutLeavesOutLater(ids: seq<Id>, limit: nat, id: Id)
    requires Increasing(ids) && 0 < limit < |ids| && id in ids && id <= ids[limit - 1]
    ensures id in ids[..limit]
  {
    var i :| 0 <= i < |ids| && ids[i] == id;
    assert ids[..limit][i] == id;
  }

  lemma IdsAreAfter(t: Tables, revision: nat, after: Option<Id>)
    ensures var ids := Sorted(Following(Revision(t, revision), after));
      Increasing(ids) && forall id: Id :: id in ids <==> Key(revision, id) in t.rows && After(after, id)
  {
    SortedIsIncreasing(Following(Revision(t, revision), after));
    forall id: Id
      ensures id in Sorted(Following(Revision(t, revision), after)) <==> Key(revision, id) in t.rows && After(after, id)
    {
      SortedHas(Following(Revision(t, revision), after), id);
      RevisionAt(t, revision, id);
    }
  }

  lemma PageServesNext(t: Tables, revision: nat, limit: nat, after: Option<Id>)
    requires limit > 0
    ensures ServesNext(t, revision, limit, after, PageOf(Revision(t, revision), limit, after, revision))
  {
    var ids := Sorted(Following(Revision(t, revision), after));
    IdsAreAfter(t, revision, after);
    FollowingIsKnown(Revision(t, revision), after);
    if |ids| > limit {
      CutServesNext(t, revision, limit, after, ids);
    } else {
      EntriesAreRows(t, revision, after, ids);
    }
  }

  lemma CutServesNext(t: Tables, revision: nat, limit: nat, after: Option<Id>, ids: seq<Id>)
    requires limit > 0 && Increasing(ids) && |ids| > limit
    requires forall id: Id :: id in ids <==> Key(revision, id) in t.rows && After(after, id)
    ensures forall id :: id in ids[..limit] ==> id in Revision(t, revision)
    ensures ServesNext(t, revision, limit, after,
                       Page(Entries(Revision(t, revision), ids[..limit]), revision, Some(ids[limit - 1])))
  {
    forall id | id in ids[..limit]
      ensures id in Revision(t, revision) && After(after, id)
    {
      assert id in ids;
      RevisionAt(t, revision, id);
    }
    EntriesAreRows(t, revision, after, ids[..limit]);
    forall id: Id | Key(revision, id) in t.rows && After(after, id) && id <= ids[limit - 1]
      ensures id in ids[..limit]
    {
      CutLeavesOutLater(ids, limit, id);
    }
    assert ids[limit] in ids;
  }

  /** A read without a snapshot is of the current one. It is answered exactly when the snapshot it is of has a product,
      with that snapshot's revision and its next products after the cursor. */
  lemma ReadsServeTheSnapshot(t: Tables, limit: nat, after: Option<Id>, snapshot: nat)
    requires limit > 0
    ensures var revision := if snapshot == 0 then t.current else snapshot; var result := Read(t, limit, after, snapshot);
      && (result.Found? <==> SomeProduct(t, revision))
      && (result.Found? ==> ServesNext(t, revision, limit, after, result.page))
  {
    var revision := if snapshot == 0 then t.current else snapshot;
    PageServesNext(t, revision, limit, after);
    if SomeProduct(t, revision) {
      var id :| Key(revision, id) in t.rows;
      RevisionAt(t, revision, id);
    } else {
      assert Revision(t, revision) == map[];
    }
  }

  // ----- A client from its first request on -----

  /** The first request names no snapshot; the following ones name the revision of the first page. */
  ghost function Browsed(tables: seq<Tables>, limit: nat): WalkEnd
    requires limit > 0
  {
    if tables == [] then Unfinished
    else
      match Read(tables[0], limit, None, 0)
      case SnapshotExpired => Expired
      case Found(page) =>
        if page.nextAfter.None? then Done([page])
        else
          var rest := Followed(tables[1..], limit, page.revision, page.nextAfter);
          if rest.Done? then Done([page] + rest.pages) else rest
  }

  lemma BrowsingIsFollowing(tables: seq<Tables>, limit: nat)
    requires limit > 0 && tables != [] && tables[0].current > 0
    ensures Browsed(tables, limit) == Followed(tables, limit, tables[0].current, None)
  {
  }

  /** A client that starts without a snapshot while the catalog has a product collects exactly the snapshot that was
      current at its first request, in the order of the product identifiers, provided that at most one publication falls
      into its walk and that it has as many requests as the snapshot fills pages; it is never told that the snapshot
      expired. */
  lemma BrowsingCollectsTheSnapshot(
    states: seq<Tables>, events: seq<Event>, moments: seq<nat>, tables: seq<Tables>, limit: nat)
    requires IsRun(states, events) && limit > 0 && |moments| == |tables| && moments != []
    requires forall k :: 0 <= k < |moments| ==> moments[0] <= moments[k] < |states| && tables[k] == states[moments[k]]
    requires forall k :: 0 <= k < |moments| ==> OnlyPublishes(events, moments[0], moments[k])
    requires forall k :: 0 <= k < |moments| ==> states[moments[k]].current <= states[moments[0]].current + 1
    requires SomeProduct(states[moments[0]], states[moments[0]].current)
    ensures var start := states[moments[0]]; var view := Revision(start, start.current);
      var end := Browsed(tables, limit);
      && !end.Expired?
      && (end.Done? <==> |view| <= |moments| * limit)
      && (end.Done? ==> Collected(end.pages) == AllEntries(view) && FillsPages(|view|, |end.pages|, limit))
  {
    var start := states[moments[0]];
    RunKeepsValid(states, events, moments[0]);
    var id :| Key(start.current, id) in start.rows;
    RevisionAt(start, start.current, id);
    assert id in Revision(start, start.current);
    BrowsingIsFollowing(tables, limit);
    PinnedWalkIsExact(states, events, moments, tables, limit);
  }

  // ----- What can be published -----

  /** The characters that Unicode calls white space. */
  const WHITE_SPACE: string :=
    "\t\n\U{B}\U{C}\r \U{85}\U{A0}\U{1680}\U{2000}\U{2001}\U{2002}\U{2003}\U{2004}\U{2005}\U{2006}\U{2007}\U{2008}\U{2009}\U{200A}\U{2028}\U{2029}\U{202F}\U{205F}\U{3000}"

  lemma SpacesAreWhiteSpace(c: char)
    ensures IsSpace(c) <==> c in WHITE_SPACE
  {
  }

  ghost predicate OnlyBlanks(s: string) {
    forall i :: 0 <= i < |s| ==> s[i] == ' '
  }

  /** What is left of the text without the blanks around it. */
  ghost predicate IsCore(s: string, left: string, core: string, right: string) {
    && s == left + core + right && OnlyBlanks(left) && OnlyBlanks(right)
    && (core != "" ==> core[0] != ' ' && core[|core| - 1] != ' ')
  }

  lemma {:induction false} TrimmedIsCore(s: string, left: string, core: string, right: string)
    requires IsCore(s, left, core, right)
    ensures TrimmedLength(s) == |core|
    decreases |s|
  {
    if left != "" {
      assert s[0] == ' ' && s[1..] == left[1..] + core + right;
      TrimmedIsCore(s[1..], left[1..], core, right);
    } else if core == "" {
      if right != "" {
        assert s[0] == ' ' && s[1..] == left + core + right[1..];
        TrimmedIsCore(s[1..], left, core, right[1..]);
      }
    } else if right != "" {
      assert s[0] == core[0] && s[|s| - 1] == ' ' && s[..|s| - 1] == left + core + right[..|right| - 1];
      TrimmedIsCore(s[..|s| - 1], left, core, right[..|right| - 1]);
    } else {
      assert s == core;
    }
  }

  lemma {:induction false} CoreExists(s: string)
    ensures exists left, core, right :: IsCore(s, left, core, right)
    decreases |s|
  {
    if s == "" {
      assert IsCore(s, "", "", "");
    } else if s[0] == ' ' {
      CoreExists(s[1..]);
      var left, core, right :| IsCore(s[1..], left, core, right);
      assert s == [s[0]] + s[1..] && s == ([' '] + left) + core + right;
      assert IsCore(s, [' '] + left, core, right);
    } else if s[|s| - 1] == ' ' {
      CoreExists(s[..|s| - 1]);
      var left, core, right :| IsCore(s[..|s| - 1], left, core, right);
      assert s == s[..|s| - 1] + [' '] && s == left + core + (right + [' ']);
      assert IsCore(s, left, core, right + [' ']);
    } else {
      assert s == "" + s + "" && IsCore(s, "", s, "");
    }
  }

  /** Something to read: a character that is no white space, and 1 to 200 characters between the blanks around them. */
  ghost predicate IsTitle(s: string) {
    && (exists c :: c in s && c !in WHITE_SPACE)
    && exists left, core, right :: IsCore(s, left, core, right) && 1 <= |core| <= 200
  }

  lemma TitlesAreStorable(s: string)
    ensures IsTitle(s) <==> !Blank(s) && 1 <= TrimmedLength(s) <= 200
  {
    forall c
      ensures IsSpace(c) <==> c in WHITE_SPACE
    {
      SpacesAreWhiteSpace(c);
    }
    CoreExists(s);
    forall left, core, right | IsCore(s, left, core, right)
      ensures TrimmedLength(s) == |core|
    {
      TrimmedIsCore(s, left, core, right);
    }
  }

  /** A set of products can be published exactly if no product is in it twice, every product has a title and a titled
      category, a price that is not negative, a description of up to 2000 characters and a time of its last change. */
  lemma PublishedExactlyWhen(products: seq<Product>)
    ensures Publishable(products) <==>
      && (forall i, j :: 0 <= i < j < |products| ==> products[i].id != products[j].id)
      && (forall p :: p in products ==>
            && IsTitle(p.details.name) && IsTitle(p.details.categoryName) && p.details.price >= 0
            && |p.details.description| <= 2000 && p.details.sourceUpdatedAt != 0)
  {
    forall p | p in products
      ensures IsTitle(p.details.name) <==> !Blank(p.details.name) && 1 <= TrimmedLength(p.details.name) <= 200
      ensures IsTitle(p.details.categoryName) <==>
        !Blank(p.details.categoryName) && 1 <= TrimmedLength(p.details.categoryName) <= 200
    {
      TitlesAreStorable(p.details.name);
      TitlesAreStorable(p.details.categoryName);
    }
  }
}
