/**
  Finance/Screens/AccountView/AccountViewModel.swift: the account screen's
  currency texts, the balance field's sanitising, and the load and update
  flows. The bank account service's answers are the parameters of `Load`
  and `UpdateAccount`.
*/
module AccountViewModelModule {
  import opened Wrappers
  import opened Text
  import opened Decimals
  import opened Structs
  import opened NetworkClient

  /** `currency`: the symbol of the account's currency, or "" without an account or for an unknown code. */
  function CurrencySymbol(account: Option<BankAccount>): (r: string)
    ensures r == "" <==> account.None? || CurrencyFromRaw(account.value.currency).None?
    ensures account.Some? && account.value.currency == "RUB" ==> r == "₽"
    ensures account.Some? && account.value.currency == "USD" ==> r == "$"
    ensures account.Some? && account.value.currency == "EUR" ==> r == "€"
  {
    if account.None? then ""
    else match CurrencyFromRaw(account.value.currency)
      case None => ""
      case Some(c) => Symbol(c)
  }

  /** `currencyString`: the full name of the account's currency, or "" in the same cases. */
  function CurrencyName(account: Option<BankAccount>): (r: string)
    ensures r == "" <==> account.None? || CurrencyFromRaw(account.value.currency).None?
    ensures r != "" ==> r == FullName(CurrencyFromRaw(account.value.currency).value)
  {
    if account.None? then ""
    else match CurrencyFromRaw(account.value.currency)
      case None => ""
      case Some(c) => FullName(c)
  }

  predicate IsBalanceChar(c: char) {
    IsDigit(c) || c == ',' || c == '.'
  }

  /** The typed text with everything but digits and separators dropped, and ',' read as '.'. */
  function Filtered(text: string): string {
    ReplaceChar(Keep(text, IsBalanceChar), ',', '.')
  }

  /** `formatBalanceText()`: the first separator becomes the one '.', the others are dropped. */
  function FormatBalance(text: string): string {
    var filtered := Filtered(text);
    var components := Split(filtered, '.');
    if |components| > 1 then components[0] + "." + Concat(components[1..]) else filtered
  }

  predicate DigitsAndDots(s: string) {
    forall i :: 0 <= i < |s| ==> IsDigit(s[i]) || s[i] == '.'
  }

  lemma {:induction false} ReplaceKeeps(s: string)
    requires forall i :: 0 <= i < |s| ==> IsBalanceChar(s[i])
    ensures DigitsAndDots(ReplaceChar(s, ',', '.'))
    ensures Keep(ReplaceChar(s, ',', '.'), IsDigit) == Keep(s, IsDigit)
    ensures ('.' in ReplaceChar(s, ',', '.')) <==> ('.' in s || ',' in s)
  {
    if s != [] {
      ReplaceKeeps(s[1..]);
    }
  }

  lemma {:induction false} KeepKeep(s: string)
    ensures Keep(Keep(s, IsBalanceChar), IsDigit) == Keep(s, IsDigit)
  {
    if s != [] {
      var head := if IsBalanceChar(s[0]) then [s[0]] else [];
      assert Keep(s, IsBalanceChar) == head + Keep(s[1..], IsBalanceChar);
      KeepAppend(head, Keep(s[1..], IsBalanceChar), IsDigit);
      assert Keep(head, IsDigit) == if IsDigit(s[0]) then [s[0]] else [];
      KeepKeep(s[1..]);
    }
  }

  /** On digits and dots, keeping the digits is removing the dots. */
  lemma {:induction false} DigitsAreDotsRemoved(s: string)
    requires DigitsAndDots(s)
    ensures Keep(s, IsDigit) == RemoveAll(s, '.')
  {
    if s != [] {
      DigitsAreDotsRemoved(s[1..]);
    }
  }

  lemma FilteredSpec(text: string)
    ensures DigitsAndDots(Filtered(text))
    ensures Keep(Filtered(text), IsDigit) == Keep(text, IsDigit)
    ensures ('.' in Filtered(text)) <==> ('.' in text || ',' in text)
  {
    KeepKeep(text);
    ReplaceKeeps(Keep(text, IsBalanceChar));
    KeepMembers(text, IsBalanceChar, '.');
    KeepMembers(text, IsBalanceChar, ',');
  }

  /** The text up to its first '.', then (when there is one) a single '.' and the rest without its dots. */
  function FirstDotOnly(f: string): string {
    var k := IndexOf(f, '.');
    if k < |f| then f[..k] + "." + RemoveAll(f[k + 1..], '.') else f
  }

  /**
    The formatted text is the filtered text up to its first separator, then
    (when there was one) a single '.' and the rest with its separators dropped.
  */
  lemma FormatBalanceShape(text: string)
    ensures FormatBalance(text) == FirstDotOnly(Filtered(text))
  {
    var f := Filtered(text);
    SplitCount(f, '.');
    if '.' in f {
      SplitHead(f, '.');
      SplitTail(f, '.');
    }
  }

  lemma {:induction false} DotsRemoved(t: string)
    requires DigitsAndDots(t)
    ensures AllDigits(RemoveAll(t, '.'))
  {
    if t != [] {
      DotsRemoved(t[1..]);
      var head := if t[0] != '.' then [t[0]] else [];
      assert RemoveAll(t, '.') == head + RemoveAll(t[1..], '.');
    }
  }

  lemma FirstDotOnlyChars(f: string)
    requires DigitsAndDots(f)
    ensures DigitsAndDots(FirstDotOnly(f))
  {
    var k := IndexOf(f, '.');
    if k < |f| {
      var a := f[..k];
      var t := f[k + 1..];
      assert DigitsAndDots(t) by {
        forall i | 0 <= i < |t| ensures IsDigit(t[i]) || t[i] == '.' {
          assert t[i] == f[k + 1 + i];
        }
      }
      DotsRemoved(t);
      var b := RemoveAll(t, '.');
      var r := a + "." + b;
      forall i | 0 <= i < |r| ensures IsDigit(r[i]) || r[i] == '.' {
        if i < k {
          assert r[i] == f[i];
        } else if i > k {
          assert r[i] == b[i - k - 1];
        }
      }
    }
  }

  lemma FirstDotOnlyDots(f: string)
    ensures Count(FirstDotOnly(f), '.') == if '.' in f then 1 else 0
  {
    var k := IndexOf(f, '.');
    if k < |f| {
      var a := f[..k];
      var b := RemoveAll(f[k + 1..], '.');
      CountAppend(a + ".", b, '.');
      CountAppend(a, ".", '.');
    }
  }

  lemma SplitAround(f: string, k: nat)
    requires k < |f| && f[k] == '.'
    ensures f == f[..k] + ['.'] + f[k + 1..]
  {
  }

  lemma DotsRemovedTwice(a: string, t: string)
    ensures RemoveAll(a + ['.'] + RemoveAll(t, '.'), '.') == RemoveAll(a + ['.'] + t, '.')
  {
    var b := RemoveAll(t, '.');
    RemoveAllAbsent(b, '.');
    RemoveAllAround(a, '.', b);
    RemoveAllAround(a, '.', t);
  }

  lemma FirstDotOnlyDigits(f: string)
    ensures RemoveAll(FirstDotOnly(f), '.') == RemoveAll(f, '.')
  {
    var k := IndexOf(f, '.');
    if k < |f| {
      SplitAround(f, k);
      DotsRemovedTwice(f[..k], f[k + 1..]);
    }
  }

  /** A text of digits with at most one '.' is left as it is. */
  lemma FirstDotOnlyFixed(s: string)
    requires Count(s, '.') <= 1
    ensures FirstDotOnly(s) == s
  {
    var k := IndexOf(s, '.');
    if k < |s| {
      assert s == s[..k] + [s[k]] + s[k + 1..];
      CountAppend(s[..k] + [s[k]], s[k + 1..], '.');
      CountAppend(s[..k], [s[k]], '.');
      RemoveAllAbsent(s[k + 1..], '.');
    }
  }

  /** The result has digits and '.' only, at most one '.', and the typed digits in their order. */
  lemma FormatBalanceSpec(text: string)
    ensures DigitsAndDots(FormatBalance(text))
    ensures Count(FormatBalance(text), '.') <= 1
    ensures ('.' in FormatBalance(text)) <==> ('.' in text || ',' in text)
    ensures Keep(FormatBalance(text), IsDigit) == Keep(text, IsDigit)
  {
    var f := Filtered(text);
    FilteredSpec(text);
    FormatBalanceShape(text);
    FirstDotOnlyChars(f);
    FirstDotOnlyDots(f);
    FirstDotOnlyDigits(f);
    DigitsAreDotsRemoved(f);
    DigitsAreDotsRemoved(FirstDotOnly(f));
  }

  /** Formatting a formatted text changes nothing. */
  lemma FormatBalanceIdempotent(text: string)
    ensures FormatBalance(FormatBalance(text)) == FormatBalance(text)
  {
    var r := FormatBalance(text);
    FormatBalanceSpec(text);
    KeepAll(r, IsBalanceChar);
    ReplaceAbsent(r);
    FormatBalanceShape(r);
    FirstDotOnlyFixed(r);
  }

  lemma {:induction false} ReplaceAbsent(s: string)
    requires ',' !in s
    ensures ReplaceChar(s, ',', '.') == s
  {
    if s != [] {
      ReplaceAbsent(s[1..]);
    }
  }

  class AccountViewModel {
    var account: Option<BankAccount>
    var isLoading: bool
    var error: Option<string>
    var localBalanceText: string
    var formattedBalanceText: string
    var localCurrency: Currency

    constructor ()
      ensures account == None && !isLoading && error == None
      ensures localBalanceText == "" && formattedBalanceText == "" && localCurrency == Rub
    {
      account := None;
      isLoading := false;
      error := None;
      localBalanceText := "";
      formattedBalanceText := "";
      localCurrency := Rub;
    }

    /** `load()`, given what `getAccount()` returned; a cancellation is not an error. */
    method Load(fetched: Result<BankAccount, Failure>)
      modifies this
      ensures !isLoading
      ensures fetched.Success? ==> account == Some(fetched.value) && error == None
      ensures fetched.Failure? ==>
        account == old(account) && error == (if fetched.error.Cancelled? then None else Some(Describe(fetched.error)))
      ensures localBalanceText == old(localBalanceText) && formattedBalanceText == old(formattedBalanceText)
      ensures localCurrency == old(localCurrency)
    {
      isLoading := true;
      error := None;
      match fetched {
        case Success(a) =>
          account := Some(a);
        case Failure(e) =>
          if !e.Cancelled? {
            error := Some(Describe(e));
          }
      }
      isLoading := false;
    }

    /**
      `updateAccount()`, given the answers of `updateAccount(amount:newCurrencyCode:)`
      and of the `getAccount()` that follows it; `sent` is the request made, if any.
    */
    method UpdateAccount(updated: Result<(), Failure>, fetched: Result<BankAccount, Failure>)
      returns (sent: Option<(Decimal, string)>)
      modifies this
      ensures sent.None? <==>
        Parse(old(formattedBalanceText)).None?
        || (old(account).Some? && Parse(old(formattedBalanceText)).value == old(account).value.balance
            && CurrencyRawValue(localCurrency) == old(account).value.currency)
      ensures sent.None? ==> account == old(account) && error == old(error) && isLoading == old(isLoading)
      ensures sent.Some? ==> sent.value == (Parse(old(formattedBalanceText)).value, CurrencyRawValue(localCurrency))
      ensures sent.Some? ==> !isLoading
      ensures sent.Some? && updated.Failure? ==> account == old(account) && error == Some(Describe(updated.error))
      ensures sent.Some? && updated.Success? && fetched.Success? ==> account == Some(fetched.value) && error == None
      ensures sent.Some? && updated.Success? && fetched.Failure? ==>
        account == old(account) && error == Some(Describe(fetched.error))
      ensures localBalanceText == old(localBalanceText) && formattedBalanceText == old(formattedBalanceText)
      ensures localCurrency == old(localCurrency)
    {
      var amount := Parse(formattedBalanceText);
      if amount.None? {
        return None;
      }
      if account.Some? && amount.value == account.value.balance && CurrencyRawValue(localCurrency) == account.value.currency {
        return None;
      }
      isLoading := true;
      error := None;
      sent := Some((amount.value, CurrencyRawValue(localCurrency)));
      match updated {
        case Failure(e) =>
          error := Some(Describe(e));
        case Success(_) =>
          match fetched {
            case Success(a) =>
              account := Some(a);
            case Failure(e) =>
              error := Some(Describe(e));
          }
      }
      isLoading := false;
    }

    /** `formatBalanceText()`: the sanitised text goes into both fields. */
    method FormatBalanceText()
      modifies this
      ensures formattedBalanceText == FormatBalance(old(localBalanceText))
      ensures localBalanceText == formattedBalanceText
      ensures account == old(account) && isLoading == old(isLoading) && error == old(error)
      ensures localCurrency == old(localCurrency)
    {
      formattedBalanceText := FormatBalance(localBalanceText);
      localBalanceText := formattedBalanceText;
    }
  }
}
