/**
 The whole backfill, organisation after organisation: exactly when it succeeds, and a table that stops it.
 */
module CategoryMigration {
  import opened Options
  import opened CategorySeed
  import opened CategoryCatalogue
  import opened CategoryFloor

  // ---------- rows that do not fit ----------

  // A top-level item of the walk is a master of the catalogue or the transfer category.
  lemma {:induction false} TopLevelItems(catalogue: seq<Master>, k: nat)
    requires k < |MasterItems(catalogue)| && MasterItems(catalogue)[k].under.None?
    ensures exists m ::
              m in catalogue && m.slug == MasterItems(catalogue)[k].slug && m.kind == MasterItems(catalogue)[k].kind
    decreases |catalogue|
  {
    var n := |catalogue| - 1;
    var before, m := MasterItems(catalogue[..n]), catalogue[n];
    if k < |before| {
      TopLevelItems(catalogue[..n], k);
      var m' :| m' in catalogue[..n] && m'.slug == before[k].slug && m'.kind == before[k].kind;
      assert m' in catalogue && MasterItems(catalogue)[k] == before[k];
    } else {
      assert m in catalogue && MasterItems(catalogue)[k] == Item(m.slug, m.kind, None);
    }
  }

  // Once the slugs of all masters of a floor's kind are taken, nothing in a catalogue helps that floor.
  lemma TakenMastersDoNotHelp(rows: seq<Row>, org: nat, catalogue: seq<Master>, f: Floor)
    requires f.IncomeMasters? || f.ExpenseMasters?
    requires forall m :: m in catalogue && m.kind == FloorKind(f) ==> m.slug in SystemSlugs(rows, org)
    ensures !Supplied(rows, org, Items(catalogue), f)
  {
    var items := Items(catalogue);
    forall k | 0 <= k < |items|
      ensures !Helps(rows, org, items[k], f)
    {
      if k < |MasterItems(catalogue)| && items[k].under.None? {
        TopLevelItems(catalogue, k);
      }
    }
  }

  // An organisation without an income master whose income slug is taken stays below its floor.
  lemma TakenIncomeSlugBlocks(t: Table, org: nat)
    requires t.Valid() && Slug("income") in SystemSlugs(t.rows, org) && !Reached(t.rows, org, IncomeMasters)
    ensures UnderFloor(t.rows, org) && UnderFloor(Seed(t, org, SYSTEM_CATEGORIES).rows, org)
    ensures !Succeeds(t, [org], SYSTEM_CATEGORIES)
  {
    forall m | m in SYSTEM_CATEGORIES && m.kind == IncomeKind
      ensures m.slug in SystemSlugs(t.rows, org)
    {
      OnlyIncomeIsIncome(m);
    }
    TakenMastersDoNotHelp(t.rows, org, SYSTEM_CATEGORIES, IncomeMasters);
    SystemCategoriesAreAddressed();
    SeedReachesFloorIff(t, org, SYSTEM_CATEGORIES, SystemAddress, IncomeMasters);
    UnderFloorIff(t.rows, org);
    UnderFloorIff(Seed(t, org, SYSTEM_CATEGORIES).rows, org);
    OneOrganisation(t, org, SYSTEM_CATEGORIES);
  }

  lemma OneOrganisation(t: Table, org: nat, catalogue: seq<Master>)
    ensures Upgraded(t, [org], catalogue) == UpgradedOrg(t, org, catalogue)
    ensures Succeeds(t, [org], catalogue) <==> !UnderFloor(UpgradedOrg(t, org, catalogue).rows, org)
  {
    assert [org][..0] == [] && [org][..1] == [org];
  }

  // One system row is enough: an expense master under the income slug.  Seeding finds the slug taken and
  // leaves the organisation without an income master, so the migration fails.
  lemma AMisfiledIncomeMasterBlocksTheMigration(org: nat)
    ensures var t := Table([Row(0, org, None, Some(Slug("income")), ExpenseKind, true)], 1);
            && t.Valid() && UnderFloor(t.rows, org)
            && UnderFloor(Seed(t, org, SYSTEM_CATEGORIES).rows, org)
            && !Succeeds(t, [org], SYSTEM_CATEGORIES)
  {
    var row := Row(0, org, None, Some(Slug("income")), ExpenseKind, true);
    var t := Table([row], 1);
    assert row in t.rows;
    forall r | r in t.rows
      ensures !Counts(t.rows, r, org, IncomeMasters)
    {
      assert r == row;
    }
    TakenIncomeSlugBlocks(t, org);
  }

  lemma OnlyIncomeIsIncome(m: Master)
    requires m in SYSTEM_CATEGORIES
    ensures m.kind == if m.slug == Slug("income") then IncomeKind else ExpenseKind
  {
  }

  // ---------- the whole migration ----------

  // Seeding one organisation leaves the rows of the others as they are, so they go on fitting.
  lemma OthersKeepFitting(t: Table, org: nat, catalogue: seq<Master>, home: Slug -> Address, someOrg: nat,
                          items: seq<Item>)
    requires t.Valid() && Addressed(catalogue, home) && someOrg != org && Fits(t.rows, someOrg, items)
    ensures Fits(Seed(t, org, catalogue).rows, someOrg, items)
  {
    var t' := Seed(t, org, catalogue);
    SeedOnlyAppends(t, org, SystemSlugs(t.rows, org), Items(catalogue));
    forall r, k | r in t'.rows && 0 <= k < |items| && IsSystemRow(r, someOrg, items[k].slug)
      ensures r in t.rows
    {
      var i :| 0 <= i < |t'.rows| && t'.rows[i] == r;
      assert i < |t.rows|;
    }
  }

  ghost predicate Ready(rows: seq<Row>, org: nat) {
    !UnderFloor(rows, org) || Fits(rows, org, Items(SYSTEM_CATEGORIES))
  }

  lemma UpgradedOrgStaysReady(t: Table, org: nat, someOrg: nat)
    requires t.Valid() && Ready(t.rows, org) && Ready(t.rows, someOrg)
    ensures var t' := UpgradedOrg(t, org, SYSTEM_CATEGORIES);
            t'.Valid() && t.rows <= t'.rows && !UnderFloor(t'.rows, org) && Ready(t'.rows, someOrg)
  {
    if UnderFloor(t.rows, org) {
      var items := Items(SYSTEM_CATEGORIES);
      SystemCategoriesAreAddressed();
      CatalogueItems(SYSTEM_CATEGORIES, SystemAddress);
      ExactlyTheMissingAreWritten(t, org, items);
      FittingRowsReachTheFloor(t, org);
      if !UnderFloor(t.rows, someOrg) {
        FloorStays(t.rows, Seed(t, org, SYSTEM_CATEGORIES).rows, someOrg);
      } else if someOrg != org {
        OthersKeepFitting(t, org, SYSTEM_CATEGORIES, SystemAddress, someOrg, items);
      }
    }
  }

  // When every organisation is above its floor or fits the catalogue, the migration never stops early: it
  // brings all of them to their floor and leaves every earlier row where it was.
  lemma {:induction false} ReadyTablesUpgrade(t: Table, orgs: seq<nat>, someOrg: nat)
    requires t.Valid() && Ready(t.rows, someOrg) && forall org :: org in orgs ==> Ready(t.rows, org)
    ensures var t' := Upgraded(t, orgs, SYSTEM_CATEGORIES);
            t'.Valid() && t.rows <= t'.rows && Ready(t'.rows, someOrg)
              && (someOrg in orgs ==> !UnderFloor(t'.rows, someOrg))
    decreases |orgs|
  {
    if orgs != [] {
      var n := |orgs| - 1;
      ReadyTablesUpgrade(t, orgs[..n], someOrg);
      ReadyTablesUpgrade(t, orgs[..n], orgs[n]);
      var t0 := Upgraded(t, orgs[..n], SYSTEM_CATEGORIES);
      UpgradedOrgStaysReady(t0, orgs[n], someOrg);
      if someOrg in orgs[..n] {
        FloorStays(t0.rows, UpgradedOrg(t0, orgs[n], SYSTEM_CATEGORIES).rows, someOrg);
      }
    }
  }

  // ---------- exactly when the migration succeeds ----------

  // Seeding one organisation changes nothing another one's floor depends on.
  lemma OthersAreUnaffected(t: Table, org: nat, items: seq<Item>, someOrg: nat, f: Floor)
    requires t.Valid() && Distinct(items) && MastersFirst(items) && someOrg != org
    ensures var t' := SeedItems(t, org, SystemSlugs(t.rows, org), items);
            && (Reached(t'.rows, someOrg, f) <==> Reached(t.rows, someOrg, f))
            && (forall other :: Supplied(t'.rows, someOrg, other, f) <==> Supplied(t.rows, someOrg, other, f))
  {
    var t' := SeedItems(t, org, SystemSlugs(t.rows, org), items);
    ExactlyTheMissingAreWritten(t, org, items);
    SeedOnlyAppends(t, org, SystemSlugs(t.rows, org), items);
    if Reached(t'.rows, someOrg, f) {
      var r :| r in t'.rows && Counts(t'.rows, r, someOrg, f);
      var i :| 0 <= i < |t'.rows| && t'.rows[i] == r;
      OldRowsCountAsBefore(t, t', someOrg, f, i);
    }
    if Reached(t.rows, someOrg, f) {
      ReachedStays(t.rows, t'.rows, someOrg, f);
    }
    forall other
      ensures Supplied(t'.rows, someOrg, other, f) <==> Supplied(t.rows, someOrg, other, f)
    {
      forall k | 0 <= k < |other|
        ensures Helps(t'.rows, someOrg, other[k], f) <==> Helps(t.rows, someOrg, other[k], f)
      {
        OthersLookUpAsBefore(t, t', org, someOrg, other[k]);
      }
      assert Supplied(t.rows, someOrg, other, f) ==> Supplied(t'.rows, someOrg, other, f);
    }
  }

  lemma OthersLookUpAsBefore(t: Table, t': Table, org: nat, someOrg: nat, item: Item)
    requires t.rows <= t'.rows && someOrg != org
    requires forall i :: |t.rows| <= i < |t'.rows| ==> t'.rows[i].org == org
    ensures SystemSlugs(t'.rows, someOrg) == SystemSlugs(t.rows, someOrg)
    ensures item.under.Some? ==> MasterKind(t'.rows, someOrg, item) == MasterKind(t.rows, someOrg, item)
  {
    forall r | r in t'.rows && r.org == someOrg
      ensures r in t.rows
    {
      var i :| 0 <= i < |t'.rows| && t'.rows[i] == r;
      assert i < |t.rows|;
    }
    assert forall r :: r in t.rows ==> r in t'.rows;
    if item.under.Some? {
      LookupFinds(t.rows, someOrg, item.under.value);
      LookupFinds(t'.rows, someOrg, item.under.value);
      if Lookup(t.rows, someOrg, item.under.value).Some? {
        LookupStays(t.rows, t'.rows, someOrg, item.under.value);
      }
    }
  }

  // Each floor of the organisation is reached already or helped by an item it lacks.
  ghost predicate Reachable(rows: seq<Row>, org: nat, items: seq<Item>) {
    forall f: Floor :: Reached(rows, org, f) || Supplied(rows, org, items, f)
  }

  lemma AboveFloorIsReached(rows: seq<Row>, org: nat)
    ensures !UnderFloor(rows, org) <==> forall f: Floor :: Reached(rows, org, f)
  {
    UnderFloorIff(rows, org);
    if !UnderFloor(rows, org) {
      forall f: Floor
        ensures Reached(rows, org, f)
      {
        match f case IncomeMasters => case ExpenseMasters => case IncomeSubs => case ExpenseSubs =>
      }
    }
  }

  lemma UpgradedOrgReachesFloorIff(t: Table, org: nat, catalogue: seq<Master>, home: Slug -> Address)
    requires t.Valid() && Addressed(catalogue, home)
    ensures UpgradedOrg(t, org, catalogue).Valid() && t.rows <= UpgradedOrg(t, org, catalogue).rows
    ensures !UnderFloor(UpgradedOrg(t, org, catalogue).rows, org) <==> Reachable(t.rows, org, Items(catalogue))
  {
    AboveFloorIsReached(t.rows, org);
    AboveFloorIsReached(UpgradedOrg(t, org, catalogue).rows, org);
    if UnderFloor(t.rows, org) {
      SeededTableIsValid(t, org, catalogue, home);
      forall f: Floor
        ensures Reached(Seed(t, org, catalogue).rows, org, f)
                <==> Reached(t.rows, org, f) || Supplied(t.rows, org, Items(catalogue), f)
      {
        SeedReachesFloorIff(t, org, catalogue, home, f);
      }
    }
  }

  lemma SeededTableIsValid(t: Table, org: nat, catalogue: seq<Master>, home: Slug -> Address)
    requires t.Valid() && Addressed(catalogue, home)
    ensures Seed(t, org, catalogue).Valid() && t.rows <= Seed(t, org, catalogue).rows
  {
    CatalogueItems(catalogue, home);
    ExactlyTheMissingAreWritten(t, org, Items(catalogue));
  }

  lemma UpgradedOrgLeavesOthersReachable(t: Table, org: nat, catalogue: seq<Master>, home: Slug -> Address,
                                         someOrg: nat)
    requires t.Valid() && Addressed(catalogue, home) && someOrg != org
    ensures Reachable(UpgradedOrg(t, org, catalogue).rows, someOrg, Items(catalogue))
            <==> Reachable(t.rows, someOrg, Items(catalogue))
  {
    CatalogueItems(catalogue, home);
    forall f: Floor
      ensures UnderFloor(t.rows, org) ==>
                var t' := UpgradedOrg(t, org, catalogue);
                && (Reached(t'.rows, someOrg, f) <==> Reached(t.rows, someOrg, f))
                && (Supplied(t'.rows, someOrg, Items(catalogue), f) <==> Supplied(t.rows, someOrg, Items(catalogue), f))
    {
      OthersAreUnaffected(t, org, Items(catalogue), someOrg, f);
    }
  }

  lemma {:induction false} UpgradedLeavesOthersReachable(t: Table, orgs: seq<nat>, catalogue: seq<Master>,
                                                         home: Slug -> Address, someOrg: nat)
    requires t.Valid() && Addressed(catalogue, home) && someOrg !in orgs
    ensures var t' := Upgraded(t, orgs, catalogue);
            && t'.Valid()
            && (Reachable(t'.rows, someOrg, Items(catalogue)) <==> Reachable(t.rows, someOrg, Items(catalogue)))
    decreases |orgs|
  {
    if orgs != [] {
      var n := |orgs| - 1;
      UpgradedLeavesOthersReachable(t, orgs[..n], catalogue, home, someOrg);
      var t0 := Upgraded(t, orgs[..n], catalogue);
      UpgradedOrgReachesFloorIff(t0, orgs[n], catalogue, home);
      UpgradedOrgLeavesOthersReachable(t0, orgs[n], catalogue, home, someOrg);
    }
  }

  // The migration succeeds exactly when every organisation, as it stands beforehand, has each floor reached
  // or lacks an item that helps it.
  lemma MigrationSucceedsIff(t: Table, orgs: seq<nat>, catalogue: seq<Master>, home: Slug -> Address)
    requires t.Valid() && Addressed(catalogue, home)
    requires forall i, j :: 0 <= i < j < |orgs| ==> orgs[i] != orgs[j]
    ensures Succeeds(t, orgs, catalogue) <==> forall org :: org in orgs ==> Reachable(t.rows, org, Items(catalogue))
  {
    forall k | 0 <= k < |orgs|
      ensures !UnderFloor(Upgraded(t, orgs[..k + 1], catalogue).rows, orgs[k])
              <==> Reachable(t.rows, orgs[k], Items(catalogue))
    {
      assert orgs[..k + 1][..k] == orgs[..k];
      UpgradedLeavesOthersReachable(t, orgs[..k], catalogue, home, orgs[k]);
      UpgradedOrgReachesFloorIff(Upgraded(t, orgs[..k], catalogue), orgs[k], catalogue, home);
    }
  }

  // Run again on the table it left, the migration changes nothing.
  lemma {:induction false} NothingToUpgrade(t: Table, orgs: seq<nat>, catalogue: seq<Master>)
    requires forall org :: org in orgs ==> !UnderFloor(t.rows, org)
    ensures Upgraded(t, orgs, catalogue) == t
    decreases |orgs|
  {
    if orgs != [] {
      NothingToUpgrade(t, orgs[..|orgs| - 1], catalogue);
    }
  }
}
