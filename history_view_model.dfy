/**
  Finance/Screens/HistoryView/HistoryViewModel.swift: the transactions of a
  date range joined with their categories, the range clamping of the two
  date pickers, and the two sort orders of the list. The services' answers
  are the parameters of `Load` and `CheckDate`; dates are read in the time
  zone `zone`.
*/
module HistoryViewModelModule {
  import opened Wrappers
  import opened Decimals
  import opened Structs
  import opened Tables
  import opened Sorting
  import opened Dates

  type Item = (Transaction, Category)

  function CategoryId(c: Category): int {
    c.id
  }

  function ItemAmount(item: Item): Decimal {
    item.0.amount
  }

  function TransactionCategoryId(t: Transaction): int {
    t.categoryId
  }

  /** Whether some category has the transaction's category id. */
  function HasCategory(cs: seq<Category>): Transaction -> bool {
    Referenced(cs, TransactionCategoryId, CategoryId)
  }

  /** The `load` loop: each transaction with a category of its id, paired with the first such category. */
  function Join(ts: seq<Transaction>, cs: seq<Category>): seq<Item> {
    JoinFirst(ts, cs, TransactionCategoryId, CategoryId)
  }

  /** The joined transactions are those having a category, in their order. */
  lemma JoinTransactions(ts: seq<Transaction>, cs: seq<Category>)
    ensures Map(Join(ts, cs), PairFirst) == Filter(ts, HasCategory(cs))
    ensures forall t :: t in Map(Join(ts, cs), PairFirst) <==> t in ts && HasKey(cs, CategoryId, t.categoryId)
  {
    JoinFirstLeft(ts, cs, TransactionCategoryId, CategoryId);
    var r := Filter(ts, HasCategory(cs));
    forall t
      ensures t in r <==> t in ts && HasKey(cs, CategoryId, t.categoryId)
    {
      assert Referenced(cs, TransactionCategoryId, CategoryId)(t) == HasKey(cs, CategoryId, TransactionCategoryId(t));
    }
  }

  /** Each transaction is paired with the first category of its id. */
  lemma JoinCategories(ts: seq<Transaction>, cs: seq<Category>)
    ensures forall k :: 0 <= k < |Join(ts, cs)| ==>
      FirstIndex(cs, CategoryId, Join(ts, cs)[k].0.categoryId) < |cs|
      && Join(ts, cs)[k].1 == cs[FirstIndex(cs, CategoryId, Join(ts, cs)[k].0.categoryId)]
  {
    JoinFirstRight(ts, cs, TransactionCategoryId, CategoryId);
  }

  /** A total that is the sum of the amounts of some items. */
  function Total(items: seq<Item>): Decimal {
    Sum(Map(items, ItemAmount))
  }

  /** Adding an item to the list adds its amount to the total. */
  lemma TotalSnoc(items: seq<Item>, x: Item)
    ensures Total(items + [x]) == Add(Total(items), x.0.amount)
  {
    var ds := Map(items + [x], ItemAmount);
    assert ds[..|ds| - 1] == Map(items, ItemAmount);
  }

  /** The total's exact value is the sum of the exact values of the amounts. */
  lemma TotalValue(items: seq<Item>)
    ensures Value(Total(items)) == ValueSum(Map(items, ItemAmount))
  {
    SumValue(Map(items, ItemAmount));
  }

  datatype FilterType = ByDate | ByAmount

  function FilterTypeRawValue(f: FilterType): string {
    match f
    case ByDate => "Дата"
    case ByAmount => "Сумма"
  }

  function NewestFirstKey(item: Item): real {
    -(item.0.transactionDate as real)
  }

  function LargestFirstKey(item: Item): real {
    -Value(item.0.amount)
  }

  /**
    `filteredItems`: the items, latest date first or largest amount first;
    items with the same date (or amount) stay in their original order.
  */
  function FilteredItems(items: seq<Item>, scope: FilterType): (r: seq<Item>)
    ensures multiset(r) == multiset(items)
    ensures scope == ByDate ==>
      forall i, j :: 0 <= i < j < |r| ==> r[i].0.transactionDate >= r[j].0.transactionDate
    ensures scope == ByAmount ==>
      forall i, j :: 0 <= i < j < |r| ==> Value(r[i].0.amount) >= Value(r[j].0.amount)
    ensures scope == ByDate ==>
      forall k :: Filter(r, SameKey(NewestFirstKey, k)) == Filter(items, SameKey(NewestFirstKey, k))
    ensures scope == ByAmount ==>
      forall k :: Filter(r, SameKey(LargestFirstKey, k)) == Filter(items, SameKey(LargestFirstKey, k))
  {
    match scope
    case ByDate =>
      var r := SortBy(items, NewestFirstKey);
      SortStable(items, NewestFirstKey);
      assert forall i, j :: 0 <= i < j < |r| ==> NewestFirstKey(r[i]) <= NewestFirstKey(r[j]);
      r
    case ByAmount =>
      var r := SortBy(items, LargestFirstKey);
      SortStable(items, LargestFirstKey);
      assert forall i, j :: 0 <= i < j < |r| ==> LargestFirstKey(r[i]) <= LargestFirstKey(r[j]);
      r
  }

  /** The picked end of a day, 23:59:00. */
  function EndOfDay(t: int, zone: int): int {
    AtTime(t, zone, 23, 59, 0)
  }

  /** The range `check_date` leaves: `None` when it returns at once, else the new `from` and `to`. */
  function ClampedRange(from: int, to: int, flag: bool, zone: int): (r: Option<(int, int)>)
    ensures r.None? <==> StartOfDay(from, zone) <= StartOfDay(to, zone)
    ensures r.Some? ==> r.value.0 <= r.value.1 && StartOfDay(r.value.1, zone) == r.value.0
    ensures r.Some? ==> r.value.1 - r.value.0 == 23 * 3600 + 59 * 60
    ensures r.Some? && flag ==> r.value.0 == StartOfDay(to, zone)
    ensures r.Some? && !flag ==> r.value.0 == StartOfDay(from, zone)
  {
    var fromDay := StartOfDay(from, zone);
    var toDay := StartOfDay(to, zone);
    if !((flag && fromDay > toDay) || (!flag && toDay < fromDay)) then None
    else
      var day := if fromDay > toDay && flag then toDay else fromDay;
      StartOfDayOfSameDay(day, day, zone);
      Some((day, EndOfDay(day, zone)))
  }

  class HistoryViewModel {
    var items: seq<Item>
    var total: Decimal
    var from: int
    var to: int
    var selectedScope: FilterType
    const direction: Direction
    const zone: int

    /** `init`: from the start of the day a month before `now` to 23:59 today; `monthAgo` is that earlier instant. */
    constructor (direction: Direction, now: int, monthAgo: int, zone: int)
      ensures this.direction == direction && this.zone == zone
      ensures items == [] && total == Zero && selectedScope == ByDate
      ensures from == StartOfDay(monthAgo, zone) && to == EndOfDay(now, zone)
    {
      this.direction := direction;
      this.zone := zone;
      items := [];
      total := Zero;
      selectedScope := ByDate;
      from := StartOfDay(monthAgo, zone);
      to := EndOfDay(now, zone);
    }

    /** `load()`, given the transactions of the range and the categories of the direction. */
    method Load(transactions: seq<Transaction>, categories: seq<Category>)
      modifies this
      ensures items == Join(transactions, categories)
      ensures total == Total(items)
      ensures from == old(from) && to == old(to) && selectedScope == old(selectedScope)
    {
      items := [];
      total := Zero;
      for k := 0 to |transactions|
        invariant items == Join(transactions[..k], categories)
        invariant total == Total(items)
        invariant from == old(from) && to == old(to) && selectedScope == old(selectedScope)
      {
        var t := transactions[k];
        assert transactions[..k + 1][..k] == transactions[..k];
        var i := FirstIndex(categories, CategoryId, t.categoryId);
        if i < |categories| {
          TotalSnoc(items, (t, categories[i]));
          items := items + [(t, categories[i])];
          total := Add(total, t.amount);
        }
      }
      assert transactions[..|transactions|] == transactions;
    }

    /** `check_date(flag:)`; when the range changes it reloads with the services' answers for the new range. */
    method CheckDate(flag: bool, transactions: seq<Transaction>, categories: seq<Category>)
      modifies this
      ensures ClampedRange(old(from), old(to), flag, zone).None? ==>
        from == old(from) && to == old(to) && items == old(items) && total == old(total)
      ensures ClampedRange(old(from), old(to), flag, zone).Some? ==>
        (from, to) == ClampedRange(old(from), old(to), flag, zone).value
        && items == Join(transactions, categories) && total == Total(items)
      ensures selectedScope == old(selectedScope)
    {
      var range := ClampedRange(from, to, flag, zone);
      if range.None? {
        return;
      }
      from := range.value.0;
      to := range.value.1;
      Load(transactions, categories);
    }

    function Filtered(): seq<Item>
      reads this
    {
      FilteredItems(items, selectedScope)
    }
  }
}
