/**
 What the category backfill achieves for one organisation: which rows it writes, that it writes nothing
 twice, and exactly when a floor is reached.
 */
module CategoryFloor {
  import opened Options
  import opened CategorySeed
  import opened CategoryCatalogue

  // ---------- which rows are written ----------

  // The row an item leads to: under the catalogue's slug and kind, its parent the row the look-up finds.
  predicate RowFor(rows: seq<Row>, r: Row, org: nat, item: Item) {
    && IsSystemRow(r, org, item.slug) && r.kind == item.kind
    && (item.under.None? ==> r.parent == None)
    && (item.under.Some? ==>
          Lookup(rows, org, item.under.value).Some? && r.parent == Some(Lookup(rows, org, item.under.value).value.id))
  }

  lemma RowForStays(rows: seq<Row>, rows': seq<Row>, r: Row, org: nat, item: Item)
    requires rows <= rows' && RowFor(rows, r, org, item)
    ensures RowFor(rows', r, org, item)
  {
    if item.under.Some? {
      LookupStays(rows, rows', org, item.under.value);
    }
  }

  ghost predicate WrittenFor(t: Table, t': Table, org: nat, item: Item) {
    exists i :: |t.rows| <= i < |t'.rows| && RowFor(t'.rows, t'.rows[i], org, item)
  }

  ghost predicate WrittenBy(t: Table, t': Table, org: nat, existing: set<Slug>, items: seq<Item>, i: nat)
    requires i < |t'.rows|
  {
    exists k :: 0 <= k < |items| && items[k].slug !in existing && RowFor(t'.rows, t'.rows[i], org, items[k])
  }

  // Exactly the missing items are written: each has its row, and each new row is that of a missing item.
  ghost predicate ExactlyWritten(t: Table, t': Table, org: nat, existing: set<Slug>, items: seq<Item>) {
    && t'.Valid() && t.rows <= t'.rows && t.nextId <= t'.nextId
    && (forall i :: |t.rows| <= i < |t'.rows| ==>
        t.nextId <= t'.rows[i].id && WrittenBy(t, t', org, existing, items, i))
    && (forall k :: 0 <= k < |items| && items[k].slug !in existing ==> WrittenFor(t, t', org, items[k]))
  }

  lemma {:induction false} ExactlyTheMissingAreWritten(t: Table, org: nat, items: seq<Item>)
    requires t.Valid() && MastersFirst(items)
    ensures ExactlyWritten(t, SeedItems(t, org, SystemSlugs(t.rows, org), items), org, SystemSlugs(t.rows, org), items)
  {
    var existing := SystemSlugs(t.rows, org);
    if items != [] {
      var n := |items| - 1;
      PrefixMastersFirst(items, n);
      ExactlyTheMissingAreWritten(t, org, items[..n]);
      var t0 := SeedItems(t, org, existing, items[..n]);
      if items[n].slug !in existing {
        if items[n].under.Some? {
          MasterIsFound(t, t0, org, items, n);
        }
        OneMoreRow(t, t0, org, existing, items, n);
      } else {
        NoMoreRow(t, t0, org, existing, items, n);
      }
    }
  }

  lemma WrittenByMore(t: Table, t0: Table, t': Table, org: nat, existing: set<Slug>, items: seq<Item>, n: nat, i: nat)
    requires n <= |items| && i < |t0.rows| && t0.rows <= t'.rows
    requires WrittenBy(t, t0, org, existing, items[..n], i)
    ensures WrittenBy(t, t', org, existing, items, i)
  {
    var k :| 0 <= k < n && items[..n][k].slug !in existing && RowFor(t0.rows, t0.rows[i], org, items[..n][k]);
    RowForStays(t0.rows, t'.rows, t0.rows[i], org, items[k]);
  }

  lemma WrittenForMore(t: Table, t0: Table, t': Table, org: nat, item: Item)
    requires t0.rows <= t'.rows && WrittenFor(t, t0, org, item)
    ensures WrittenFor(t, t', org, item)
  {
    var i :| |t.rows| <= i < |t0.rows| && RowFor(t0.rows, t0.rows[i], org, item);
    RowForStays(t0.rows, t'.rows, t0.rows[i], org, item);
    assert t'.rows[i] == t0.rows[i];
  }

  // What was written stays written as the walk and the table go on.
  lemma WrittenMore(t: Table, t0: Table, t': Table, org: nat, existing: set<Slug>, items: seq<Item>, n: nat)
    requires n <= |items| && t0.rows <= t'.rows && ExactlyWritten(t, t0, org, existing, items[..n])
    ensures forall i :: |t.rows| <= i < |t0.rows| ==>
              t.nextId <= t'.rows[i].id && WrittenBy(t, t', org, existing, items, i)
    ensures forall k :: 0 <= k < n && items[k].slug !in existing ==> WrittenFor(t, t', org, items[k])
  {
    forall i | |t.rows| <= i < |t0.rows|
      ensures t.nextId <= t'.rows[i].id && WrittenBy(t, t', org, existing, items, i)
    {
      WrittenByMore(t, t0, t', org, existing, items, n, i);
    }
    forall k | 0 <= k < n && items[k].slug !in existing
      ensures WrittenFor(t, t', org, items[k])
    {
      assert items[..n][k] == items[k];
      WrittenForMore(t, t0, t', org, items[k]);
    }
  }

  lemma NoMoreRow(t: Table, t0: Table, org: nat, existing: set<Slug>, items: seq<Item>, n: nat)
    requires n + 1 == |items| && items[n].slug in existing
    requires ExactlyWritten(t, t0, org, existing, items[..n])
    ensures ExactlyWritten(t, t0, org, existing, items)
  {
    WrittenMore(t, t0, t0, org, existing, items, n);
  }

  lemma PrefixMastersFirst(items: seq<Item>, n: nat)
    requires MastersFirst(items) && n <= |items|
    ensures MastersFirst(items[..n])
  {
    forall k | 0 <= k < n && items[k].under.Some?
      ensures MasterBefore(items[..n], k)
    {
      assert MasterBefore(items, k);
      var j :| 0 <= j < k && items[j] == Item(items[k].under.value, items[k].kind, None);
      assert items[..n][j] == items[j];
    }
  }

  // When a child's turn comes its master has a system row: an old one, or the one its own turn wrote.
  lemma MasterIsFound(t: Table, t0: Table, org: nat, items: seq<Item>, n: nat)
    requires n < |items| && items[n].under.Some? && MastersFirst(items)
    requires ExactlyWritten(t, t0, org, SystemSlugs(t.rows, org), items[..n])
    ensures Lookup(t0.rows, org, items[n].under.value).Some?
  {
    var slug := items[n].under.value;
    LookupFinds(t.rows, org, slug);
    LookupFinds(t0.rows, org, slug);
    if slug in SystemSlugs(t.rows, org) {
      LookupStays(t.rows, t0.rows, org, slug);
    } else {
      assert MasterBefore(items, n);
      var j :| 0 <= j < n && items[j] == Item(slug, items[n].kind, None);
      assert items[..n][j] == items[j];
      assert WrittenFor(t, t0, org, items[j]);
      var i :| |t.rows| <= i < |t0.rows| && RowFor(t0.rows, t0.rows[i], org, items[j]);
      assert t0.rows[i] in t0.rows;
    }
  }

  lemma OneMoreRow(t: Table, t0: Table, org: nat, existing: set<Slug>, items: seq<Item>, n: nat)
    requires n + 1 == |items| && items[n].slug !in existing
    requires ExactlyWritten(t, t0, org, existing, items[..n])
    requires items[n].under.Some? ==> Lookup(t0.rows, org, items[n].under.value).Some?
    ensures ExactlyWritten(t, SeedItem(t0, org, existing, items[n]), org, existing, items)
  {
    var t' := SeedItem(t0, org, existing, items[n]);
    NewRowFits(t0, org, existing, items[n]);
    WrittenMore(t, t0, t', org, existing, items, n);
    NewRowIsWritten(t, t0, t', org, existing, items, n);
    OldAndNewWritten(t, t0, t', org, existing, items, n);
  }

  lemma OldAndNewWritten(t: Table, t0: Table, t': Table, org: nat, existing: set<Slug>, items: seq<Item>, n: nat)
    requires n + 1 == |items| && t'.Valid() && t.rows <= t0.rows <= t'.rows && |t'.rows| == |t0.rows| + 1
    requires t.nextId <= t'.rows[|t0.rows|].id && t.nextId <= t'.nextId
    requires forall i :: |t.rows| <= i < |t0.rows| ==>
               t.nextId <= t'.rows[i].id && WrittenBy(t, t', org, existing, items, i)
    requires forall k :: 0 <= k < n && items[k].slug !in existing ==> WrittenFor(t, t', org, items[k])
    requires WrittenBy(t, t', org, existing, items, |t0.rows|) && WrittenFor(t, t', org, items[n])
    ensures ExactlyWritten(t, t', org, existing, items)
  {
  }

  lemma NewRowIsWritten(t: Table, t0: Table, t': Table, org: nat, existing: set<Slug>, items: seq<Item>, n: nat)
    requires n + 1 == |items| && items[n].slug !in existing
    requires t.rows <= t0.rows && |t'.rows| == |t0.rows| + 1 && RowFor(t'.rows, t'.rows[|t0.rows|], org, items[n])
    ensures WrittenBy(t, t', org, existing, items, |t0.rows|) && WrittenFor(t, t', org, items[n])
  {
  }

  lemma NewRowFits(t0: Table, org: nat, existing: set<Slug>, item: Item)
    requires item.slug !in existing && t0.Valid()
    requires item.under.Some? ==> Lookup(t0.rows, org, item.under.value).Some?
    ensures var t' := SeedItem(t0, org, existing, item);
            && t'.Valid() && |t'.rows| == |t0.rows| + 1 && t0.rows <= t'.rows && t'.nextId == t0.nextId + 1
            && RowFor(t'.rows, t'.rows[|t0.rows|], org, item) && t'.rows[|t0.rows|].id == t0.nextId
  {
    var t' := SeedItem(t0, org, existing, item);
    if item.under.Some? {
      LookupFinds(t0.rows, org, item.under.value);
      LookupStays(t0.rows, t'.rows, org, item.under.value);
    }
  }

  // ---------- once each, and never twice ----------

  function Occurrences(rows: seq<Row>, org: nat, slug: Slug): nat {
    if rows == [] then 0
    else Occurrences(rows[..|rows| - 1], org, slug) + (if IsSystemRow(rows[|rows| - 1], org, slug) then 1 else 0)
  }

  lemma {:induction false} NoOccurrenceIff(rows: seq<Row>, org: nat, slug: Slug)
    ensures Occurrences(rows, org, slug) == 0 <==> slug !in SystemSlugs(rows, org)
  {
    if rows != [] {
      NoOccurrenceIff(rows[..|rows| - 1], org, slug);
      assert forall r :: r in rows <==> r == rows[|rows| - 1] || r in rows[..|rows| - 1];
    }
  }

  ghost predicate InWalk(items: seq<Item>, slug: Slug) {
    exists k :: 0 <= k < |items| && items[k].slug == slug
  }

  lemma InWalkStep(items: seq<Item>, n: nat, slug: Slug)
    requires n + 1 == |items|
    ensures InWalk(items, slug) <==> InWalk(items[..n], slug) || items[n].slug == slug
    ensures Distinct(items) && items[n].slug == slug ==> !InWalk(items[..n], slug)
  {
    if InWalk(items[..n], slug) {
      var k :| 0 <= k < n && items[..n][k].slug == slug;
      assert items[k].slug == slug;
    }
  }

  // A slug of the walk that was missing has exactly one system row afterwards; every other slug, here and
  // in every other organisation, has as many as before.
  lemma {:induction false} MissingSlugsAppearOnce(t: Table, org: nat, items: seq<Item>, someOrg: nat, slug: Slug)
    requires t.Valid() && Distinct(items) && MastersFirst(items)
    ensures Occurrences(SeedItems(t, org, SystemSlugs(t.rows, org), items).rows, someOrg, slug)
            == Occurrences(t.rows, someOrg, slug)
               + (if someOrg == org && slug !in SystemSlugs(t.rows, org) && InWalk(items, slug) then 1 else 0)
  {
    if items != [] {
      var n, existing := |items| - 1, SystemSlugs(t.rows, org);
      PrefixMastersFirst(items, n);
      MissingSlugsAppearOnce(t, org, items[..n], someOrg, slug);
      InWalkStep(items, n, slug);
      var t0 := SeedItems(t, org, existing, items[..n]);
      if items[n].slug !in existing && items[n].under.Some? {
        ExactlyTheMissingAreWritten(t, org, items[..n]);
        MasterIsFound(t, t0, org, items, n);
      }
      OccurrencesStep(t0, org, existing, items[n], someOrg, slug);
    }
  }

  lemma OccurrencesStep(t0: Table, org: nat, existing: set<Slug>, item: Item, someOrg: nat, slug: Slug)
    requires item.slug !in existing && item.under.Some? ==> Lookup(t0.rows, org, item.under.value).Some?
    ensures Occurrences(SeedItem(t0, org, existing, item).rows, someOrg, slug)
            == Occurrences(t0.rows, someOrg, slug)
               + (if someOrg == org && slug == item.slug && slug !in existing then 1 else 0)
  {
    var t' := SeedItem(t0, org, existing, item);
    if item.slug !in existing {
      assert t'.rows[..|t0.rows|] == t0.rows;
    }
  }

  lemma {:induction false} NothingMissingNothingWritten(t: Table, org: nat, existing: set<Slug>, items: seq<Item>)
    requires forall k :: 0 <= k < |items| ==> items[k].slug in existing
    ensures SeedItems(t, org, existing, items) == t
  {
    if items != [] {
      NothingMissingNothingWritten(t, org, existing, items[..|items| - 1]);
    }
  }

  // A second run inserts nothing.
  lemma SeedingTwiceIsSeedingOnce(t: Table, org: nat, catalogue: seq<Master>, home: Slug -> Address)
    requires t.Valid() && Addressed(catalogue, home)
    ensures Seed(Seed(t, org, catalogue), org, catalogue) == Seed(t, org, catalogue)
  {
    var items, t' := Items(catalogue), Seed(t, org, catalogue);
    CatalogueItems(catalogue, home);
    ExactlyTheMissingAreWritten(t, org, items);
    forall k | 0 <= k < |items|
      ensures items[k].slug in SystemSlugs(t'.rows, org)
    {
      if items[k].slug in SystemSlugs(t.rows, org) {
        assert forall r :: r in t.rows ==> r in t'.rows;
      } else {
        assert WrittenFor(t, t', org, items[k]);
        var i :| |t.rows| <= i < |t'.rows| && RowFor(t'.rows, t'.rows[i], org, items[k]);
        assert t'.rows[i] in t'.rows;
      }
    }
    NothingMissingNothingWritten(t', org, SystemSlugs(t'.rows, org), items);
  }

  // ---------- exactly when the floor is reached ----------

  // The kind of the row a child is put under: that of the old row of its master's slug, if there is one.
  function MasterKind(rows: seq<Row>, org: nat, item: Item): Kind
    requires item.under.Some?
  {
    var old' := Lookup(rows, org, item.under.value);
    if old'.Some? then old'.value.kind else item.kind
  }

  // A missing item that will count towards a floor.
  predicate Helps(rows: seq<Row>, org: nat, item: Item, f: Floor) {
    && item.slug !in SystemSlugs(rows, org)
    && if f.IncomeMasters? || f.ExpenseMasters? then item.under.None? && item.kind == FloorKind(f)
       else item.under.Some? && MasterKind(rows, org, item) == FloorKind(f)
  }

  ghost predicate Supplied(rows: seq<Row>, org: nat, items: seq<Item>, f: Floor) {
    exists k :: 0 <= k < |items| && Helps(rows, org, items[k], f)
  }

  lemma FinalMasterKind(t: Table, t': Table, org: nat, items: seq<Item>, k: nat)
    requires t.Valid() && k < |items| && items[k].under.Some?
    requires Distinct(items) && MastersFirst(items)
    requires ExactlyWritten(t, t', org, SystemSlugs(t.rows, org), items)
    requires Lookup(t'.rows, org, items[k].under.value).Some?
    ensures Lookup(t'.rows, org, items[k].under.value).value.kind == MasterKind(t.rows, org, items[k])
  {
    var slug, existing := items[k].under.value, SystemSlugs(t.rows, org);
    LookupFinds(t.rows, org, slug);
    LookupFinds(t'.rows, org, slug);
    assert MasterBefore(items, k);
    if slug in existing {
      LookupStays(t.rows, t'.rows, org, slug);
    } else {
      FreshMasterKind(t, t', org, items, k, Lookup(t'.rows, org, slug).value);
    }
  }

  lemma FreshMasterKind(t: Table, t': Table, org: nat, items: seq<Item>, k: nat, m: Row)
    requires k < |items| && items[k].under.Some? && items[k].under.value !in SystemSlugs(t.rows, org)
    requires Distinct(items) && MasterBefore(items, k)
    requires ExactlyWritten(t, t', org, SystemSlugs(t.rows, org), items)
    requires m in t'.rows && IsSystemRow(m, org, items[k].under.value)
    ensures m.kind == items[k].kind
  {
    var slug, existing := items[k].under.value, SystemSlugs(t.rows, org);
    assert m !in t.rows;
    var i :| 0 <= i < |t'.rows| && t'.rows[i] == m;
    assert WrittenBy(t, t', org, existing, items, i);
    var a :| 0 <= a < |items| && items[a].slug !in existing && RowFor(t'.rows, m, org, items[a]);
    var b :| 0 <= b < k && items[b] == Item(slug, items[k].kind, None);
    assert a == b;
  }

  lemma SuppliedIsReached(t: Table, t': Table, org: nat, items: seq<Item>, f: Floor)
    requires t.Valid() && Distinct(items) && MastersFirst(items)
    requires ExactlyWritten(t, t', org, SystemSlugs(t.rows, org), items)
    requires Supplied(t.rows, org, items, f)
    ensures Reached(t'.rows, org, f)
  {
    var k :| 0 <= k < |items| && Helps(t.rows, org, items[k], f);
    assert WrittenFor(t, t', org, items[k]);
    var i :| |t.rows| <= i < |t'.rows| && RowFor(t'.rows, t'.rows[i], org, items[k]);
    if items[k].under.Some? {
      FinalMasterKind(t, t', org, items, k);
    }
    HelpfulRowCounts(t.rows, t'.rows, t'.rows[i], org, items[k], f);
  }

  lemma HelpfulRowCounts(rows: seq<Row>, rows': seq<Row>, r: Row, org: nat, item: Item, f: Floor)
    requires Helps(rows, org, item, f) && r in rows' && RowFor(rows', r, org, item)
    requires item.under.Some? ==> Lookup(rows', org, item.under.value).value.kind == MasterKind(rows, org, item)
    ensures Reached(rows', org, f)
  {
    if item.under.Some? {
      LookupFinds(rows', org, item.under.value);
    }
    assert Counts(rows', r, org, f);
  }

  lemma IdsAreKeys(t: Table, r: Row, r': Row)
    requires t.Valid() && r in t.rows && r' in t.rows && r.id == r'.id
    ensures r == r'
  {
  }

  lemma NewlyReachedIsSupplied(t: Table, t': Table, org: nat, items: seq<Item>, f: Floor, i: nat)
    requires t.Valid() && Distinct(items) && MastersFirst(items)
    requires ExactlyWritten(t, t', org, SystemSlugs(t.rows, org), items)
    requires |t.rows| <= i < |t'.rows| && Counts(t'.rows, t'.rows[i], org, f)
    ensures Supplied(t.rows, org, items, f)
  {
    assert WrittenBy(t, t', org, SystemSlugs(t.rows, org), items, i);
    var k :| 0 <= k < |items| && items[k].slug !in SystemSlugs(t.rows, org)
      && RowFor(t'.rows, t'.rows[i], org, items[k]);
    if items[k].under.Some? {
      var master := Lookup(t'.rows, org, items[k].under.value).value;
      LookupFinds(t'.rows, org, items[k].under.value);
      FinalMasterKind(t, t', org, items, k);
      var m :| m in t'.rows && Some(m.id) == t'.rows[i].parent && m.kind == FloorKind(f);
      IdsAreKeys(t', m, master);
    }
    assert Helps(t.rows, org, items[k], f);
  }

  lemma OldRowsCountAsBefore(t: Table, t': Table, org: nat, f: Floor, i: nat)
    requires t.Valid() && t.rows <= t'.rows
    requires forall k :: |t.rows| <= k < |t'.rows| ==> t.nextId <= t'.rows[k].id
    requires i < |t.rows| && Counts(t'.rows, t'.rows[i], org, f)
    ensures Reached(t.rows, org, f)
  {
    var r := t.rows[i];
    if r.parent.Some? && !f.IncomeMasters? && !f.ExpenseMasters? {
      var m :| m in t'.rows && Some(m.id) == r.parent && m.kind == FloorKind(f);
      var j :| 0 <= j < |t'.rows| && t'.rows[j] == m;
      assert j < |t.rows|;
      assert m in t.rows;
    }
    assert r in t.rows && Counts(t.rows, r, org, f);
  }

  lemma ReachedAfterwards(t: Table, t': Table, org: nat, items: seq<Item>, f: Floor)
    requires t.Valid() && Distinct(items) && MastersFirst(items)
    requires ExactlyWritten(t, t', org, SystemSlugs(t.rows, org), items)
    requires Reached(t'.rows, org, f)
    ensures Reached(t.rows, org, f) || Supplied(t.rows, org, items, f)
  {
    var r :| r in t'.rows && Counts(t'.rows, r, org, f);
    var i :| 0 <= i < |t'.rows| && t'.rows[i] == r;
    if i < |t.rows| {
      OldRowsCountAsBefore(t, t', org, f, i);
    } else {
      NewlyReachedIsSupplied(t, t', org, items, f, i);
    }
  }

  // After seeding a floor is reached exactly when it was before, or a missing item helps it.
  lemma SeedReachesFloorIff(t: Table, org: nat, catalogue: seq<Master>, home: Slug -> Address, f: Floor)
    requires t.Valid() && Addressed(catalogue, home)
    ensures Reached(Seed(t, org, catalogue).rows, org, f) <==>
              Reached(t.rows, org, f) || Supplied(t.rows, org, Items(catalogue), f)
  {
    var items, t' := Items(catalogue), Seed(t, org, catalogue);
    CatalogueItems(catalogue, home);
    ExactlyTheMissingAreWritten(t, org, items);
    assert t.rows <= t'.rows;
    if Reached(t'.rows, org, f) {
      ReachedAfterwards(t, t', org, items, f);
    }
    if Reached(t.rows, org, f) {
      ReachedStays(t.rows, t'.rows, org, f);
    } else if Supplied(t.rows, org, items, f) {
      SuppliedIsReached(t, t', org, items, f);
    }
  }

  // ---------- rows that fit the catalogue ----------

  // The old system rows under catalogue slugs have its kinds: masters at the top, children under a master.
  ghost predicate Fits(rows: seq<Row>, org: nat, items: seq<Item>) {
    forall r, k :: r in rows && 0 <= k < |items| && IsSystemRow(r, org, items[k].slug) ==>
      if items[k].under.None? then r.kind == items[k].kind && r.parent.None?
      else r.parent.Some? && exists m :: m in rows && Some(m.id) == r.parent && m.kind == items[k].kind
  }

  lemma ItemIsReachedOrHelps(t: Table, org: nat, items: seq<Item>, k: nat, f: Floor)
    requires Fits(t.rows, org, items) && MastersFirst(items) && k < |items| && items[k].kind == FloorKind(f)
    requires (f.IncomeMasters? || f.ExpenseMasters?) <==> items[k].under.None?
    ensures Reached(t.rows, org, f) || Supplied(t.rows, org, items, f)
  {
    if items[k].slug in SystemSlugs(t.rows, org) {
      var r :| r in t.rows && r.org == org && r.isSystem && r.slug == Some(items[k].slug);
      assert IsSystemRow(r, org, items[k].slug);
      assert Counts(t.rows, r, org, f);
    } else {
      if items[k].under.Some? {
        LookupFinds(t.rows, org, items[k].under.value);
        assert MasterBefore(items, k);
        var j :| 0 <= j < k && items[j] == Item(items[k].under.value, items[k].kind, None);
        if Lookup(t.rows, org, items[k].under.value).Some? {
          assert IsSystemRow(Lookup(t.rows, org, items[k].under.value).value, org, items[j].slug);
        }
      }
      assert Helps(t.rows, org, items[k], f);
    }
  }

  // With the shipped catalogue an organisation whose rows fit it always reaches its floor.
  lemma FittingRowsReachTheFloor(t: Table, org: nat)
    requires t.Valid() && Fits(t.rows, org, Items(SYSTEM_CATEGORIES))
    ensures !UnderFloor(Seed(t, org, SYSTEM_CATEGORIES).rows, org)
  {
    var items := Items(SYSTEM_CATEGORIES);
    SystemCategoriesAreAddressed();
    CatalogueItems(SYSTEM_CATEGORIES, SystemAddress);
    IncomeAndHousingComeFirst();
    ItemIsReachedOrHelps(t, org, items, 0, IncomeMasters);
    ItemIsReachedOrHelps(t, org, items, 1, IncomeSubs);
    ItemIsReachedOrHelps(t, org, items, 6, ExpenseMasters);
    ItemIsReachedOrHelps(t, org, items, 7, ExpenseSubs);
    SeedReachesFloorIff(t, org, SYSTEM_CATEGORIES, SystemAddress, IncomeMasters);
    SeedReachesFloorIff(t, org, SYSTEM_CATEGORIES, SystemAddress, IncomeSubs);
    SeedReachesFloorIff(t, org, SYSTEM_CATEGORIES, SystemAddress, ExpenseMasters);
    SeedReachesFloorIff(t, org, SYSTEM_CATEGORIES, SystemAddress, ExpenseSubs);
    UnderFloorIff(Seed(t, org, SYSTEM_CATEGORIES).rows, org);
  }

  lemma IncomeAndHousingComeFirst()
    ensures var items := Items(SYSTEM_CATEGORIES);
            && 8 <= |items|
            && items[0].kind == IncomeKind && items[0].under.None?
            && items[1].kind == IncomeKind && items[1].under.Some?
            && items[6].kind == ExpenseKind && items[6].under.None?
            && items[7].kind == ExpenseKind && items[7].under.Some?
  {
    var c := SYSTEM_CATEGORIES;
    ItemsExtend(c, 2);
    assert c[..2][..1] == c[..1] && c[..1][..0] == [];
    assert MasterItems(c[..1]) == [] + [Item(c[0].slug, c[0].kind, None)] + ChildItems(c[0], 5);
    assert MasterItems(c[..2]) == MasterItems(c[..1]) + [Item(c[1].slug, c[1].kind, None)] + ChildItems(c[1], 5);
  }

  lemma {:induction false} ItemsExtend(catalogue: seq<Master>, n: nat)
    requires n <= |catalogue|
    ensures MasterItems(catalogue[..n]) <= Items(catalogue)
  {
    MasterItemsExtend(catalogue, n);
  }

  lemma {:induction false} MasterItemsExtend(catalogue: seq<Master>, n: nat)
    requires n <= |catalogue|
    ensures MasterItems(catalogue[..n]) <= MasterItems(catalogue)
    decreases |catalogue|
  {
    if n < |catalogue| {
      MasterItemsExtend(catalogue[..|catalogue| - 1], n);
      assert catalogue[..|catalogue| - 1][..n] == catalogue[..n];
    } else {
      assert catalogue[..n] == catalogue;
    }
  }
}
