/**
  Finance/Screens/IncomeView/IncomeViewModel.swift: `TransactionsListViewModel`,
  today's transactions of one direction. The transactions service's answer,
  the current instant `now` and the time zone offset `zone` are the
  parameters of `Load`.
*/
module IncomeViewModelModule {
  import opened Wrappers
  import opened Decimals
  import opened Structs
  import opened Tables
  import opened Dates
  import opened NetworkClient
  import History = HistoryViewModelModule

  function DirectionText(d: Direction): (r: string)
    ensures r == "Доходы сегодня" <==> d == Income
    ensures r == "Расходы сегодня" <==> d == Outcome
  {
    match d
    case Income => "Доходы сегодня"
    case Outcome => "Расходы сегодня"
  }

  /** The category every listed transaction is shown with while categories are not fetched. */
  const Placeholder: Category := Category(0, "", Outcome, '🚫')

  function WithPlaceholder(t: Transaction): History.Item {
    (t, Placeholder)
  }

  /** The list `load` builds: every transaction, in order, with the placeholder category. */
  function Listed(ts: seq<Transaction>): seq<History.Item> {
    Map(ts, WithPlaceholder)
  }

  /** The listed transactions are exactly the fetched ones, and the total's value is the sum of their amounts. */
  lemma ListedSpec(ts: seq<Transaction>)
    ensures Map(Listed(ts), PairFirst) == ts
    ensures forall k :: 0 <= k < |Listed(ts)| ==> Listed(ts)[k].1 == Placeholder && Listed(ts)[k].1.id == 0
    ensures Value(History.Total(Listed(ts))) == ValueSum(Map(ts, TransactionAmount))
  {
    History.TotalValue(Listed(ts));
    assert Map(Listed(ts), History.ItemAmount) == Map(ts, TransactionAmount);
  }

  lemma ListedStep(ts: seq<Transaction>, k: nat)
    requires k < |ts|
    ensures Listed(ts[..k + 1]) == Listed(ts[..k]) + [WithPlaceholder(ts[k])]
  {
    MapPrefixStep(ts, k, WithPlaceholder);
  }

  function TransactionAmount(t: Transaction): Decimal {
    t.amount
  }

  /** The error `load` shows: none for a cancellation or a lost connection, the description otherwise. */
  function ShownError(f: Failure): (r: Option<string>)
    ensures r.None? <==> f == Cancelled || f == Network(NoInternet)
    ensures r.Some? ==> r.value == Describe(f)
  {
    match f
    case Cancelled => None
    case Network(NoInternet) => None
    case _ => Some(Describe(f))
  }

  class TransactionsListViewModel {
    var items: seq<History.Item>
    var total: Decimal
    var symbol: string
    var isLoading: bool
    var error: Option<string>
    const direction: Direction

    constructor (direction: Direction)
      ensures this.direction == direction
      ensures items == [] && total == Zero && symbol == "" && !isLoading && error == None
    {
      this.direction := direction;
      items := [];
      total := Zero;
      symbol := "";
      isLoading := false;
      error := None;
    }

    /**
      `load()`, given what `getTransactions(from:to:)` returned; `from` and
      `to` are the bounds it was asked for, today from midnight to 23:59:59.
    */
    method Load(now: int, zone: int, fetched: Result<seq<Transaction>, Failure>) returns (from: int, to: int)
      modifies this
      ensures from == StartOfDay(now, zone) && to == AtTime(now, zone, 23, 59, 59)
      ensures from <= now && StartOfDay(to, zone) == from
      ensures !isLoading
      ensures fetched.Success? ==>
        items == Listed(fetched.value) && total == History.Total(items) && symbol == "offline" && error == None
      ensures fetched.Failure? ==>
        items == [] && total == Zero && symbol == old(symbol) && error == ShownError(fetched.error)
    {
      isLoading := true;
      error := None;
      items := [];
      total := Zero;
      from := StartOfDay(now, zone);
      to := AtTime(now, zone, 23, 59, 59);
      match fetched {
        case Success(ts) =>
          for k := 0 to |ts|
            invariant items == Listed(ts[..k])
            invariant total == History.Total(items)
            invariant error == None
          {
            ListedStep(ts, k);
            History.TotalSnoc(items, WithPlaceholder(ts[k]));
            items := items + [WithPlaceholder(ts[k])];
            total := Add(total, ts[k].amount);
          }
          PrefixAll(ts);
          symbol := "offline";
        case Failure(e) =>
          error := ShownError(e);
      }
      isLoading := false;
    }
  }
}
