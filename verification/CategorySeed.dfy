/**
 The category floor backfill (backend/alembic/versions/037_categories_floor_backfill.py): seed whatever
 system categories an organisation lacks, and require an income and an expense master and sub-category
 afterwards.

 `CategoryTable` is the table the migration inserts into, one statement at a time.  Names and
 descriptions are not kept.
 */
module CategorySeed {
  import opened Options

  datatype Slug = Slug(text: string)

  const TRANSFER := Slug("transfer")

  datatype Kind = IncomeKind | ExpenseKind | BothKind

  datatype Master = Master(slug: Slug, kind: Kind, children: seq<Slug>)

  const SYSTEM_CATEGORIES: seq<Master> := [
    Master(Slug("income"), IncomeKind, [
      Slug("paycheck"), Slug("side_hustles"), Slug("bonuses"), Slug("interest_dividends"), Slug("tax_refunds")]),
    Master(Slug("housing"), ExpenseKind, [
      Slug("rent_mortgage"), Slug("property_taxes"), Slug("home_insurance"), Slug("hoa_fees"), Slug("home_repairs")]),
    Master(Slug("utilities"), ExpenseKind, [
      Slug("electricity"), Slug("water"), Slug("gas_utility"), Slug("internet"), Slug("phone"), Slug("trash")]),
    Master(Slug("food_dining"), ExpenseKind, [
      Slug("groceries"), Slug("restaurants"), Slug("coffee_shops"), Slug("fast_food")]),
    Master(Slug("transportation"), ExpenseKind, [
      Slug("fuel"), Slug("car_payments"), Slug("auto_insurance"), Slug("public_transit"), Slug("car_maintenance"),
      Slug("parking_tolls")]),
    Master(Slug("health"), ExpenseKind, [
      Slug("health_insurance"), Slug("doctor_visits"), Slug("pharmacy"), Slug("gym"), Slug("dental_vision")]),
    Master(Slug("personal_care"), ExpenseKind, [
      Slug("haircuts"), Slug("toiletries"), Slug("clothing"), Slug("shoes"), Slug("laundry")]),
    Master(Slug("lifestyle"), ExpenseKind, [
      Slug("streaming"), Slug("entertainment"), Slug("hobbies"), Slug("travel"), Slug("books_media")]),
    Master(Slug("financial_goals"), ExpenseKind, [
      Slug("emergency_fund"), Slug("retirement"), Slug("general_savings"), Slug("investments")]),
    Master(Slug("debt"), ExpenseKind, [
      Slug("credit_card_debt"), Slug("student_loans"), Slug("personal_loans")]),
    Master(Slug("giving"), ExpenseKind, [
      Slug("donations"), Slug("gifts")]),
    Master(Slug("miscellaneous"), ExpenseKind, [
      Slug("bank_fees"), Slug("taxes_other"), Slug("uncategorized")])
  ]

  datatype Row = Row(id: nat, org: nat, parent: Option<nat>, slug: Option<Slug>, kind: Kind, isSystem: bool)

  // Inserted rows are numbered from `nextId` on.
  datatype Table = Table(rows: seq<Row>, nextId: nat)
  {
    predicate Valid() {
      && (forall i :: 0 <= i < |rows| ==>
          rows[i].id < nextId && (rows[i].parent.Some? ==> rows[i].parent.value < nextId))
      && (forall i, j :: 0 <= i < j < |rows| ==> rows[i].id != rows[j].id)
    }
  }

  function Insert(t: Table, org: nat, parent: Option<nat>, slug: Slug, kind: Kind): Table {
    Table(t.rows + [Row(t.nextId, org, parent, Some(slug), kind, true)], t.nextId + 1)
  }

  predicate IsSystemRow(r: Row, org: nat, slug: Slug) {
    r.org == org && r.isSystem && r.slug == Some(slug)
  }

  function SystemSlugs(rows: seq<Row>, org: nat): set<Slug> {
    set r | r in rows && r.org == org && r.isSystem && r.slug.Some? :: r.slug.value
  }

  // The first system row of an organisation under a slug.
  function Lookup(rows: seq<Row>, org: nat, slug: Slug): Option<Row> {
    if rows == [] then None
    else if IsSystemRow(rows[0], org, slug) then Some(rows[0])
    else Lookup(rows[1..], org, slug)
  }

  // ---------- the seeding as one walk over the catalogue ----------

  // A master, a child of one, or the transfer category, in the order the migration meets them.
  datatype Item = Item(slug: Slug, kind: Kind, under: Option<Slug>)

  function ChildItems(m: Master, n: nat): seq<Item>
    requires n <= |m.children|
  {
    seq(n, i requires 0 <= i < n => Item(m.children[i], m.kind, Some(m.slug)))
  }

  function MasterItems(catalogue: seq<Master>): seq<Item> {
    if catalogue == [] then []
    else
      var m := catalogue[|catalogue| - 1];
      MasterItems(catalogue[..|catalogue| - 1]) + [Item(m.slug, m.kind, None)] + ChildItems(m, |m.children|)
  }

  function Items(catalogue: seq<Master>): seq<Item> {
    MasterItems(catalogue) + [Item(TRANSFER, BothKind, None)]
  }

  function SeedItem(t: Table, org: nat, existing: set<Slug>, item: Item): Table {
    if item.slug in existing then t
    else if item.under.None? then Insert(t, org, None, item.slug, item.kind)
    else
      var master := Lookup(t.rows, org, item.under.value);
      if master.None? then t else Insert(t, org, Some(master.value.id), item.slug, item.kind)
  }

  function SeedItems(t: Table, org: nat, existing: set<Slug>, items: seq<Item>): Table {
    if items == [] then t
    else SeedItem(SeedItems(t, org, existing, items[..|items| - 1]), org, existing, items[|items| - 1])
  }

  function Seed(t: Table, org: nat, catalogue: seq<Master>): Table {
    SeedItems(t, org, SystemSlugs(t.rows, org), Items(catalogue))
  }

  // The migration: each organisation below its floor is seeded, in order.
  function UpgradedOrg(t: Table, org: nat, catalogue: seq<Master>): Table {
    if UnderFloor(t.rows, org) then Seed(t, org, catalogue) else t
  }

  function Upgraded(t: Table, orgs: seq<nat>, catalogue: seq<Master>): Table {
    if orgs == [] then t else UpgradedOrg(Upgraded(t, orgs[..|orgs| - 1], catalogue), orgs[|orgs| - 1], catalogue)
  }

  // No organisation stays below its floor when its turn has come.
  predicate Succeeds(t: Table, orgs: seq<nat>, catalogue: seq<Master>) {
    forall k :: 0 <= k < |orgs| ==> !UnderFloor(Upgraded(t, orgs[..k + 1], catalogue).rows, orgs[k])
  }

  // ---------- the floor ----------

  datatype Floor = IncomeMasters | ExpenseMasters | IncomeSubs | ExpenseSubs

  function FloorKind(f: Floor): Kind {
    if f.IncomeMasters? || f.IncomeSubs? then IncomeKind else ExpenseKind
  }

  // A master counts by its own kind, a sub-category by its master's.
  predicate Counts(rows: seq<Row>, r: Row, org: nat, f: Floor) {
    r.org == org
    && if f.IncomeMasters? || f.ExpenseMasters? then r.parent.None? && r.kind == FloorKind(f)
       else r.parent.Some? && exists m :: m in rows && Some(m.id) == r.parent && m.kind == FloorKind(f)
  }

  function FloorCount(rows: seq<Row>, scanned: seq<Row>, org: nat, f: Floor): nat {
    if scanned == [] then 0
    else FloorCount(rows, scanned[1..], org, f) + (if Counts(rows, scanned[0], org, f) then 1 else 0)
  }

  predicate UnderFloor(rows: seq<Row>, org: nat) {
    exists f: Floor :: f in {IncomeMasters, ExpenseMasters, IncomeSubs, ExpenseSubs}
      && FloorCount(rows, rows, org, f) < 1
  }

  ghost predicate Reached(rows: seq<Row>, org: nat, f: Floor) {
    exists r :: r in rows && Counts(rows, r, org, f)
  }

  lemma {:induction false} CountIsPositiveIff(rows: seq<Row>, scanned: seq<Row>, org: nat, f: Floor)
    ensures 1 <= FloorCount(rows, scanned, org, f) <==> exists r :: r in scanned && Counts(rows, r, org, f)
  {
    if scanned != [] {
      CountIsPositiveIff(rows, scanned[1..], org, f);
      assert forall r :: r in scanned <==> r == scanned[0] || r in scanned[1..];
    }
  }

  lemma UnderFloorIff(rows: seq<Row>, org: nat)
    ensures UnderFloor(rows, org) <==> !(Reached(rows, org, IncomeMasters) && Reached(rows, org, ExpenseMasters)
                                         && Reached(rows, org, IncomeSubs) && Reached(rows, org, ExpenseSubs))
  {
    forall f: Floor
      ensures FloorCount(rows, rows, org, f) < 1 <==> !Reached(rows, org, f)
    {
      CountIsPositiveIff(rows, rows, org, f);
    }
  }

  // Rows that stay keep counting.
  lemma ReachedStays(rows: seq<Row>, rows': seq<Row>, org: nat, f: Floor)
    requires rows <= rows' && Reached(rows, org, f)
    ensures Reached(rows', org, f)
  {
    var r :| r in rows && Counts(rows, r, org, f);
    assert r in rows' && Counts(rows', r, org, f);
  }

  // ---------- the migration, statement by statement ----------

  class CategoryTable {
    var rows: seq<Row>
    var nextId: nat

    constructor (rows: seq<Row>, nextId: nat)
      ensures this.rows == rows && this.nextId == nextId
    {
      this.rows, this.nextId := rows, nextId;
    }

    function Contents(): Table
      reads this
    {
      Table(rows, nextId)
    }

    method InsertSystem(org: nat, parent: Option<nat>, slug: Slug, kind: Kind)
      modifies this
      ensures Contents() == Insert(old(Contents()), org, parent, slug, kind)
    {
      rows := rows + [Row(nextId, org, parent, Some(slug), kind, true)];
      nextId := nextId + 1;
    }

    // The inner loop: the children missing under a master that the look-up found.
    method SeedChildren(org: nat, existing: set<Slug>, m: Master, master: Row, ghost start: Table,
                        ghost done: seq<Item>)
      requires Contents() == SeedItems(start, org, existing, done)
      requires Lookup(rows, org, m.slug) == Some(master)
      modifies this
      ensures Contents() == SeedItems(start, org, existing, done + ChildItems(m, |m.children|))
    {
      assert done + ChildItems(m, 0) == done;
      for j := 0 to |m.children|
        invariant Contents() == SeedItems(start, org, existing, done + ChildItems(m, j))
        invariant Lookup(rows, org, m.slug) == Some(master)
      {
        ghost var before, item := rows, Item(m.children[j], m.kind, Some(m.slug));
        assert done + ChildItems(m, j + 1) == done + ChildItems(m, j) + [item];
        SeedNext(start, org, existing, done + ChildItems(m, j), item);
        if m.children[j] !in existing {
          InsertSystem(org, Some(master.id), m.children[j], m.kind);
          LookupStays(before, rows, org, m.slug);
        }
      }
    }

    // One turn of the outer loop: the master, then its children under the row the look-up finds.
    method SeedMaster(org: nat, existing: set<Slug>, m: Master, ghost start: Table, ghost done: seq<Item>)
      requires existing == SystemSlugs(start.rows, org)
      requires Contents() == SeedItems(start, org, existing, done)
      modifies this
      ensures Contents()
              == SeedItems(start, org, existing, done + [Item(m.slug, m.kind, None)] + ChildItems(m, |m.children|))
    {
      SeedNext(start, org, existing, done, Item(m.slug, m.kind, None));
      if m.slug !in existing {
        InsertSystem(org, None, m.slug, m.kind);
      }
      LookupAfterMaster(start, org, existing, done, m);
      var master := Lookup(rows, org, m.slug);
      if master.Some? {
        SeedChildren(org, existing, m, master.value, start, done + [Item(m.slug, m.kind, None)]);
      }
    }

    method SeedOrg(org: nat, catalogue: seq<Master>)
      modifies this
      ensures Contents() == Seed(old(Contents()), org, catalogue)
    {
      ghost var start := Contents();
      var existing := SystemSlugs(rows, org);
      for i := 0 to |catalogue|
        invariant Contents() == SeedItems(start, org, existing, MasterItems(catalogue[..i]))
      {
        SeedMaster(org, existing, catalogue[i], start, MasterItems(catalogue[..i]));
        assert catalogue[..i + 1][..i] == catalogue[..i];
      }
      assert catalogue[..|catalogue|] == catalogue;
      SeedNext(start, org, existing, MasterItems(catalogue), Item(TRANSFER, BothKind, None));
      if TRANSFER !in existing {
        InsertSystem(org, None, TRANSFER, BothKind);
      }
    }

    // Seed one organisation if it is below its floor, and say whether it is above it now.
    method UpgradeOrg(org: nat, catalogue: seq<Master>) returns (ok: bool)
      modifies this
      ensures old(rows) <= rows && ok == !UnderFloor(rows, org)
      ensures Contents() == UpgradedOrg(old(Contents()), org, catalogue)
    {
      ghost var before := Contents();
      if UnderFloor(rows, org) {
        SeedOrg(org, catalogue);
        SeedOnlyAppends(before, org, SystemSlugs(before.rows, org), Items(catalogue));
      }
      ok := !UnderFloor(rows, org);
    }

    // Every organisation in turn; stop with an error at the first that stays below its floor.
    method Upgrade(orgs: seq<nat>, catalogue: seq<Master>) returns (ok: bool)
      modifies this
      ensures ok == Succeeds(old(Contents()), orgs, catalogue)
      ensures ok ==> Contents() == Upgraded(old(Contents()), orgs, catalogue)
      ensures ok ==> forall org :: org in orgs ==> !UnderFloor(rows, org)
    {
      for k := 0 to |orgs|
        invariant Contents() == Upgraded(old(Contents()), orgs[..k], catalogue)
        invariant forall org :: org in orgs[..k] ==> !UnderFloor(rows, org)
        invariant forall i :: 0 <= i < k ==>
                    !UnderFloor(Upgraded(old(Contents()), orgs[..i + 1], catalogue).rows, orgs[i])
      {
        ghost var before := rows;
        var reached := UpgradeOrg(orgs[k], catalogue);
        assert orgs[..k + 1][..k] == orgs[..k];
        FloorsStay(before, rows, orgs[..k]);
        if !reached {
          return false;
        }
      }
      assert orgs[..|orgs|] == orgs;
      return true;
    }

    // The migration runner gives the upgrade one transaction, and an error leaves it uncommitted.
    method RunMigration(orgs: seq<nat>, catalogue: seq<Master>) returns (ok: bool)
      modifies this
      ensures ok == Succeeds(old(Contents()), orgs, catalogue)
      ensures Contents() == if ok then Upgraded(old(Contents()), orgs, catalogue) else old(Contents())
      ensures ok ==> forall org :: org in orgs ==> !UnderFloor(rows, org)
    {
      var before := Contents();
      ok := Upgrade(orgs, catalogue);
      if !ok {
        rows, nextId := before.rows, before.nextId;
      }
    }
  }

  lemma FloorStays(rows: seq<Row>, rows': seq<Row>, org: nat)
    requires rows <= rows' && !UnderFloor(rows, org)
    ensures !UnderFloor(rows', org)
  {
    UnderFloorIff(rows, org);
    UnderFloorIff(rows', org);
    ReachedStays(rows, rows', org, IncomeMasters);
    ReachedStays(rows, rows', org, ExpenseMasters);
    ReachedStays(rows, rows', org, IncomeSubs);
    ReachedStays(rows, rows', org, ExpenseSubs);
  }

  lemma FloorsStay(rows: seq<Row>, rows': seq<Row>, orgs: seq<nat>)
    requires rows <= rows' && forall org :: org in orgs ==> !UnderFloor(rows, org)
    ensures forall org :: org in orgs ==> !UnderFloor(rows', org)
  {
    forall org | org in orgs
      ensures !UnderFloor(rows', org)
    {
      FloorStays(rows, rows', org);
    }
  }

  lemma {:induction false} LookupStays(rows: seq<Row>, rows': seq<Row>, org: nat, slug: Slug)
    requires rows <= rows' && Lookup(rows, org, slug).Some?
    ensures Lookup(rows', org, slug) == Lookup(rows, org, slug)
  {
    if !IsSystemRow(rows[0], org, slug) {
      LookupStays(rows[1..], rows'[1..], org, slug);
    }
  }

  lemma {:induction false} LookupFinds(rows: seq<Row>, org: nat, slug: Slug)
    ensures Lookup(rows, org, slug).Some? <==> slug in SystemSlugs(rows, org)
    ensures Lookup(rows, org, slug).Some? ==>
              Lookup(rows, org, slug).value in rows && IsSystemRow(Lookup(rows, org, slug).value, org, slug)
  {
    if rows != [] {
      LookupFinds(rows[1..], org, slug);
      assert forall r :: r in rows <==> r == rows[0] || r in rows[1..];
    }
  }

  lemma {:induction false} SeedOnlyAppends(t: Table, org: nat, existing: set<Slug>, items: seq<Item>)
    ensures var t' := SeedItems(t, org, existing, items);
            && t.rows <= t'.rows && t.nextId <= t'.nextId
            && forall i :: |t.rows| <= i < |t'.rows| ==> t'.rows[i].org == org && t'.rows[i].isSystem
  {
    if items != [] {
      SeedOnlyAppends(t, org, existing, items[..|items| - 1]);
    }
  }

  lemma SeedNext(t: Table, org: nat, existing: set<Slug>, items: seq<Item>, item: Item)
    ensures SeedItems(t, org, existing, items + [item])
            == SeedItem(SeedItems(t, org, existing, items), org, existing, item)
  {
    assert (items + [item])[..|items|] == items;
  }

  // The look-up after a master's turn never misses: the row was there before or has just been written.
  lemma LookupAfterMaster(t: Table, org: nat, existing: set<Slug>, done: seq<Item>, m: Master)
    requires existing == SystemSlugs(t.rows, org)
    ensures Lookup(SeedItems(t, org, existing, done + [Item(m.slug, m.kind, None)]).rows, org, m.slug).Some?
  {
    var items := done + [Item(m.slug, m.kind, None)];
    assert items[..|items| - 1] == done;
    var t' := SeedItems(t, org, existing, items);
    SeedOnlyAppends(t, org, existing, items);
    if m.slug in existing {
      LookupFinds(t.rows, org, m.slug);
      LookupStays(t.rows, t'.rows, org, m.slug);
    } else {
      LookupFinds(t'.rows, org, m.slug);
      assert t'.rows[|t'.rows| - 1] in t'.rows;
    }
  }
}
