/**
 The shipped catalogue as one walk: every slug is met once, and masters before their children.
 */
module CategoryCatalogue {
  import opened Options
  import opened CategorySeed

  // ---------- the walk over the catalogue meets every slug once, masters before their children ----------

  predicate Distinct(items: seq<Item>) {
    forall a, b :: 0 <= a < b < |items| ==> items[a].slug != items[b].slug
  }

  ghost predicate MastersFirst(items: seq<Item>) {
    forall k :: 0 <= k < |items| && items[k].under.Some? ==> MasterBefore(items, k)
  }

  ghost predicate MasterBefore(items: seq<Item>, k: nat)
    requires k < |items| && items[k].under.Some?
  {
    exists j :: 0 <= j < k && items[j] == Item(items[k].under.value, items[k].kind, None)
  }

  datatype Address = Address(master: int, child: int)

  // Every slug of a catalogue has its own address in it.
  ghost predicate Addressed(catalogue: seq<Master>, home: Slug -> Address) {
    && home(TRANSFER).master < 0
    && (forall i :: 0 <= i < |catalogue| ==> home(catalogue[i].slug) == Address(i, 0))
    && (forall i, j :: 0 <= i < |catalogue| && 0 <= j < |catalogue[i].children| ==>
        home(catalogue[i].children[j]) == Address(i, j + 1))
  }

  lemma {:induction false} AddressedItems(catalogue: seq<Master>, n: nat, home: Slug -> Address)
    requires Addressed(catalogue, home) && n <= |catalogue|
    ensures var items := MasterItems(catalogue[..n]);
            && Distinct(items) && MastersFirst(items)
            && forall k :: 0 <= k < |items| ==> 0 <= home(items[k].slug).master < n
  {
    if 0 < n {
      var m, done := catalogue[n - 1], MasterItems(catalogue[..n - 1]);
      AddressedItems(catalogue, n - 1, home);
      assert catalogue[..n][..n - 1] == catalogue[..n - 1];
      var block := [Item(m.slug, m.kind, None)] + ChildItems(m, |m.children|);
      var items := done + block;
      assert MasterItems(catalogue[..n]) == items;
      assert forall k :: 0 <= k < |block| ==> home(block[k].slug) == Address(n - 1, k);
      forall k | 0 <= k < |items| && items[k].under.Some?
        ensures MasterBefore(items, k)
      {
        if k < |done| {
          assert MasterBefore(done, k);
          var j :| 0 <= j < k && done[j] == Item(done[k].under.value, done[k].kind, None);
          assert items[j] == done[j];
        } else {
          assert items[|done|] == Item(m.slug, m.kind, None);
        }
      }
    }
  }

  lemma CatalogueItems(catalogue: seq<Master>, home: Slug -> Address)
    requires Addressed(catalogue, home)
    ensures Distinct(Items(catalogue)) && MastersFirst(Items(catalogue))
  {
    AddressedItems(catalogue, |catalogue|, home);
    assert catalogue[..|catalogue|] == catalogue;
    forall k | 0 <= k < |Items(catalogue)| && Items(catalogue)[k].under.Some?
      ensures MasterBefore(Items(catalogue), k)
    {
      var items := MasterItems(catalogue);
      assert MasterBefore(items, k);
      var j :| 0 <= j < k && items[j] == Item(items[k].under.value, items[k].kind, None);
      assert Items(catalogue)[j] == items[j];
    }
  }

  // Where a slug stands in the shipped catalogue: its length and one or two of its letters tell.
  function Locate(s: string): Address {
    match |s|
    case 3 => Address(5, 4)
    case 4 =>
      if s[0] == 'f' then Address(4, 1)
      else Address(9, 0)
    case 5 =>
      if s[0] == 'w' then Address(2, 2)
      else if s[0] == 'p' then Address(2, 5)
      else if s[0] == 't' then Address(2, 6)
      else if s[0] == 's' then Address(6, 4)
      else Address(10, 2)
    case 6 =>
      if s[0] == 'i' then Address(0, 0)
      else if s[0] == 'h' then Address(5, 0)
      else if s[0] == 't' then Address(7, 4)
      else Address(10, 0)
    case 7 =>
      if s[3] == 'u' then Address(0, 3)
      else if s[3] == 's' then Address(1, 0)
      else if s[3] == 'n' then Address(6, 5)
      else Address(7, 3)
    case 8 =>
      if s[0] == 'p' && s[1] == 'a' then Address(0, 1)
      else if s[0] == 'h' && s[1] == 'o' then Address(1, 4)
      else if s[0] == 'i' && s[1] == 'n' then Address(2, 4)
      else if s[0] == 'p' && s[1] == 'h' then Address(5, 3)
      else if s[0] == 'h' && s[1] == 'a' then Address(6, 1)
      else if s[0] == 'c' && s[1] == 'l' then Address(6, 3)
      else Address(-1, 0)
    case 9 =>
      if s[0] == 'u' then Address(2, 0)
      else if s[0] == 'g' then Address(3, 1)
      else if s[0] == 'f' then Address(3, 4)
      else if s[0] == 'l' then Address(7, 0)
      else if s[0] == 's' then Address(7, 1)
      else if s[0] == 'd' then Address(10, 1)
      else Address(11, 1)
    case 10 =>
      if s[0] == 't' then Address(6, 2)
      else Address(8, 2)
    case 11 =>
      if s[0] == 't' && s[3] == '_' then Address(0, 5)
      else if s[0] == 'e' && s[3] == 'c' then Address(2, 1)
      else if s[0] == 'g' && s[3] == '_' then Address(2, 3)
      else if s[0] == 'f' && s[3] == 'd' then Address(3, 0)
      else if s[0] == 'r' && s[3] == 't' then Address(3, 2)
      else if s[0] == 'b' && s[3] == 'k' then Address(7, 5)
      else if s[0] == 'i' && s[3] == 'e' then Address(8, 4)
      else Address(11, 2)
    case 12 =>
      if s[2] == 'd' then Address(0, 2)
      else if s[2] == 'm' then Address(1, 5)
      else if s[2] == 'f' then Address(3, 3)
      else Address(4, 2)
    case 13 =>
      if s[0] == 'r' && s[1] == 'e' then Address(1, 1)
      else if s[0] == 'p' && s[1] == 'a' then Address(4, 6)
      else if s[0] == 'd' && s[1] == 'o' then Address(5, 2)
      else if s[0] == 'd' && s[1] == 'e' then Address(5, 5)
      else if s[0] == 'p' && s[1] == 'e' then Address(6, 0)
      else if s[0] == 'e' && s[1] == 'n' then Address(7, 2)
      else if s[0] == 's' && s[1] == 't' then Address(9, 2)
      else if s[0] == 'm' && s[1] == 'i' then Address(11, 0)
      else Address(11, 3)
    case 14 =>
      if s[2] == 'o' then Address(1, 2)
      else if s[2] == 'm' then Address(1, 3)
      else if s[2] == 'a' then Address(4, 0)
      else if s[2] == 't' then Address(4, 3)
      else if s[2] == 'b' then Address(4, 4)
      else if s[2] == 'e' then Address(8, 1)
      else Address(9, 3)
    case 15 =>
      if s[0] == 'c' then Address(4, 5)
      else if s[0] == 'f' then Address(8, 0)
      else Address(8, 3)
    case 16 =>
      if s[0] == 'h' then Address(5, 1)
      else Address(9, 1)
    case 18 => Address(0, 4)
    case _ => Address(-1, 0)
  }

  function SystemAddress(s: Slug): Address {
    Locate(s.text)
  }

  lemma MasterIsAddressed(i: nat)
    requires i < |SYSTEM_CATEGORIES|
    ensures SystemAddress(SYSTEM_CATEGORIES[i].slug) == Address(i, 0)
  {
  }

  lemma FirstChildrenAreAddressed(i: nat, j: nat)
    requires i < 3 && j < |SYSTEM_CATEGORIES[i].children|
    ensures SystemAddress(SYSTEM_CATEGORIES[i].children[j]) == Address(i, j + 1)
  {
  }

  lemma SecondChildrenAreAddressed(i: nat, j: nat)
    requires 3 <= i < 6 && j < |SYSTEM_CATEGORIES[i].children|
    ensures SystemAddress(SYSTEM_CATEGORIES[i].children[j]) == Address(i, j + 1)
  {
  }

  lemma ThirdChildrenAreAddressed(i: nat, j: nat)
    requires 6 <= i < 9 && j < |SYSTEM_CATEGORIES[i].children|
    ensures SystemAddress(SYSTEM_CATEGORIES[i].children[j]) == Address(i, j + 1)
  {
  }

  lemma LastChildrenAreAddressed(i: nat, j: nat)
    requires 9 <= i < |SYSTEM_CATEGORIES| && j < |SYSTEM_CATEGORIES[i].children|
    ensures SystemAddress(SYSTEM_CATEGORIES[i].children[j]) == Address(i, j + 1)
  {
  }

  // The shipped catalogue has no slug twice, and none of them is the transfer category's.
  lemma SystemCategoriesAreAddressed()
    ensures Addressed(SYSTEM_CATEGORIES, SystemAddress)
  {
    forall i | 0 <= i < |SYSTEM_CATEGORIES|
      ensures SystemAddress(SYSTEM_CATEGORIES[i].slug) == Address(i, 0)
    {
      MasterIsAddressed(i);
    }
    forall i, j | 0 <= i < |SYSTEM_CATEGORIES| && 0 <= j < |SYSTEM_CATEGORIES[i].children|
      ensures SystemAddress(SYSTEM_CATEGORIES[i].children[j]) == Address(i, j + 1)
    {
      if i < 3 {
        FirstChildrenAreAddressed(i, j);
      } else if i < 6 {
        SecondChildrenAreAddressed(i, j);
      } else if i < 9 {
        ThirdChildrenAreAddressed(i, j);
      } else {
        LastChildrenAreAddressed(i, j);
      }
    }
  }
}
