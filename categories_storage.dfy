/**
  Finance/LocalStorage/CategoriesStorage.swift: the local mirror of the
  categories. The persisted record keeps the direction as `isIncome`.
  `saveCategories` replaces the whole table: it deletes every fetched record
  one by one, then inserts one record per new category.
*/
module CategoriesStorageModule {
  import opened Structs
  import opened Tables

  datatype CategoryRecord = CategoryRecord(id: int, name: string, emoji: char, isIncome: bool)

  function FromCategory(c: Category): CategoryRecord {
    CategoryRecord(c.id, c.name, c.emoji, c.direction == Income)
  }

  function ToCategory(r: CategoryRecord): Category {
    Category(r.id, r.name, if r.isIncome then Income else Outcome, r.emoji)
  }

  lemma CategoryRecordRoundTrip(c: Category)
    ensures ToCategory(FromCategory(c)) == c
  {
  }

  /** Reading back the records stored for a list gives that list. */
  lemma {:induction false} StoredListReadsBack(cs: seq<Category>)
    ensures Map(Map(cs, FromCategory), ToCategory) == cs
  {
    if cs != [] {
      StoredListReadsBack(cs[1..]);
      CategoryRecordRoundTrip(cs[0]);
      assert Map(cs, FromCategory)[1..] == Map(cs[1..], FromCategory);
    }
  }

  /** The fetch predicate of `getCategories(by:)`. */
  function IsDirection(d: Direction): CategoryRecord -> bool {
    (r: CategoryRecord) => r.isIncome == (d == Income)
  }

  function HasDirection(d: Direction): Category -> bool {
    (c: Category) => c.direction == d
  }

  /** Fetching by the stored flag gives the categories of that direction, in table order. */
  lemma ByDirection(rs: seq<CategoryRecord>, d: Direction)
    ensures Map(Filter(rs, IsDirection(d)), ToCategory) == Filter(Map(rs, ToCategory), HasDirection(d))
  {
    MapFilter(rs, ToCategory, IsDirection(d), HasDirection(d));
  }

  /** The income and the outcome categories together are all the categories, each once. */
  lemma DirectionsPartition(cs: seq<Category>)
    ensures multiset(Filter(cs, HasDirection(Income))) + multiset(Filter(cs, HasDirection(Outcome))) == multiset(cs)
  {
    FilterPartition(cs, HasDirection(Income), HasDirection(Outcome));
  }

  /** `s` without its first occurrence of `x`: one copy of `x` fewer, and no change when it is absent. */
  function WithoutFirst(s: seq<CategoryRecord>, x: CategoryRecord): (r: seq<CategoryRecord>)
    ensures s != [] && s[0] == x ==> r == s[1..]
    ensures x !in s ==> r == s
    ensures multiset(r) == multiset(s) - multiset{x}
  {
    if s == [] then []
    else
      HeadSplit(s);
      if s[0] == x then s[1..]
      else [s[0]] + WithoutFirst(s[1..], x)
  }

  class SwiftDataCategoriesStorage {
    var records: seq<CategoryRecord>

    constructor ()
      ensures records == []
    {
      records := [];
    }

    method GetAllCategories() returns (cs: seq<Category>)
      ensures cs == Map(records, ToCategory)
    {
      cs := Map(records, ToCategory);
    }

    method GetCategories(direction: Direction) returns (cs: seq<Category>)
      ensures cs == Filter(Map(records, ToCategory), HasDirection(direction))
      ensures forall c :: c in cs <==> c in Map(records, ToCategory) && c.direction == direction
    {
      ByDirection(records, direction);
      cs := Map(Filter(records, IsDirection(direction)), ToCategory);
    }

    /** `modelContext.delete` of one stored record. */
    method DeleteRecord(r: CategoryRecord)
      modifies this
      ensures records == WithoutFirst(old(records), r)
    {
      records := WithoutFirst(records, r);
    }

    method SaveCategories(categories: seq<Category>)
      modifies this
      ensures records == Map(categories, FromCategory)
      ensures Map(records, ToCategory) == categories
      ensures multiset(Map(records, ToCategory)) == multiset(categories)
    {
      var fetched := records;
      var i := 0;
      while i < |fetched|
        invariant 0 <= i <= |fetched|
        invariant records == fetched[i..]
      {
        DropStep(fetched, i);
        DeleteRecord(fetched[i]);
        i := i + 1;
      }
      assert records == [];
      var j := 0;
      while j < |categories|
        invariant 0 <= j <= |categories|
        invariant records == Map(categories[..j], FromCategory)
      {
        MapPrefixStep(categories, j, FromCategory);
        records := records + [FromCategory(categories[j])];
        j := j + 1;
      }
      PrefixAll(categories);
      StoredListReadsBack(categories);
    }
  }
}
