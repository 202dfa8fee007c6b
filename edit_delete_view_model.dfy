/**
  Finance/Screens/EditDeleteView/EditDeleteViewModel.swift: the form that
  creates, edits or deletes one transaction. The services' answers are
  parameters of the methods that call them, the current instant is `now`,
  and the locale's decimal separator is the character `sep`.
*/
module EditDeleteViewModelModule {
  import opened Wrappers
  import opened Text
  import opened Decimals
  import opened Structs
  import opened Dates
  import opened NetworkClient

  function ButtonText(isEditing: bool): (r: string)
    ensures r == "Сохранить" <==> isEditing
    ensures r == "Создать" <==> !isEditing
  {
    if isEditing then "Сохранить" else "Создать"
  }

  function DirectionText(d: Direction): (r: string)
    ensures r == "Мои доходы" <==> d == Income
    ensures r == "Мои расходы" <==> d == Outcome
  {
    match d
    case Income => "Мои доходы"
    case Outcome => "Мои расходы"
  }

  function DeleteText(d: Direction): (r: string)
    ensures r == "Удалить доход" <==> d == Income
    ensures r == "Удалить расход" <==> d == Outcome
  {
    match d
    case Income => "Удалить доход"
    case Outcome => "Удалить расход"
  }

  function IsAmountChar(sep: char): char -> bool {
    c => IsDigit(c) || c == sep
  }

  /** The typed text with everything but digits and the separator dropped. */
  function AmountFiltered(num: string, sep: char): (r: string)
    ensures forall i :: 0 <= i < |r| ==> IsDigit(r[i]) || r[i] == sep
  {
    Keep(num, IsAmountChar(sep))
  }

  /** The filtered text, with a "0" put in front of a leading separator. */
  function Sanitized(filtered: string, sep: char): string {
    if |filtered| > 0 && filtered[0] == sep then "0" + filtered else filtered
  }

  /**
    Sanitising ends in the filtered text, grows it by one '0' exactly when it
    starts with the separator, and (for a separator other than '0') leaves no
    leading separator and the same number of separators.
  */
  lemma SanitizedShape(filtered: string, sep: char)
    ensures var r := Sanitized(filtered, sep);
      && |filtered| <= |r| && r[|r| - |filtered|..] == filtered
      && (|r| == |filtered| + 1 <==> |filtered| > 0 && filtered[0] == sep)
      && (|r| == |filtered| || r[0] == '0')
      && (sep != '0' && r != [] ==> r[0] != sep)
      && (sep != '0' ==> Count(r, sep) == Count(filtered, sep))
  {
    if |filtered| > 0 && filtered[0] == sep {
      CountAppend("0", filtered, sep);
      assert ("0" + filtered)[1..] == filtered;
    }
  }

  /**
    `checkInput(num:)`: `None` when the text is left alone (a second
    separator was typed), else the new `amountText` and `amount`.
  */
  function InputChange(num: string, sep: char): Option<(string, Option<Decimal>)> {
    var filtered := AmountFiltered(num, sep);
    if |Split(filtered, sep)| > 2 then None
    else
      var sanitized := Sanitized(filtered, sep);
      match ParseWith(sanitized, sep)
      case Some(v) => Some((sanitized, Some(v)))
      case None => Some(("", None))
  }

  /**
    With a separator that is neither a digit nor a sign: the input is refused
    exactly when it holds two separators; otherwise an empty filtered text
    clears the amount and any other one is taken, sanitised, with its value.
  */
  lemma InputChangeOutcome(num: string, sep: char)
    requires !IsDigit(sep) && sep != '-' && sep != '+'
    ensures var f := AmountFiltered(num, sep);
      && (InputChange(num, sep).None? <==> Count(f, sep) > 1)
      && (Count(f, sep) <= 1 && f == [] ==> InputChange(num, sep) == Some(("", None)))
      && (Count(f, sep) <= 1 && f != [] ==>
            InputChange(num, sep) == Some((Sanitized(f, sep), ParseWith(Sanitized(f, sep), sep)))
            && ParseWith(Sanitized(f, sep), sep).Some?)
  {
    var f := AmountFiltered(num, sep);
    SplitCount(f, sep);
    if Count(f, sep) <= 1 && f != [] {
      var s := Sanitized(f, sep);
      if f[0] == sep {
        assert s == "0" + f;
        assert s[0] == '0';
        CountAppend("0", f, sep);
        assert forall i :: 1 <= i < |s| ==> s[i] == f[i - 1];
      } else {
        assert IsDigit(s[0]);
      }
      ParseAccepts(s, sep);
    }
  }

  /** What `save()` asks the transaction service to do. */
  datatype SaveRequest =
    | Edit(id: int, categoryId: int, accountId: int, amount: Decimal, transactionDate: int, comment: string)
    | AddNew(transaction: Transaction)

  class EditDeleteViewModel {
    const direction: Direction
    var isEditing: bool
    var transactionId: Option<int>
    var categories: seq<Category>
    var amountText: string
    var amount: Option<Decimal>
    var prevAmount: Option<Decimal>
    var selectedDate: int
    var selectedTime: int
    var fullDate: int
    var description: string
    var selectedCategory: Option<Category>
    var isChoosingCategory: bool
    var isShowingAlert: bool
    var isLoading: bool
    var error: Option<string>

    /** `init`: a selected transaction fills the form for editing; otherwise every date is `now`. */
    constructor (direction: Direction, selected: Option<(Transaction, Category)>, now: int)
      ensures this.direction == direction
      ensures isEditing <==> selected.Some?
      ensures categories == [] && !isChoosingCategory && !isShowingAlert && !isLoading && error == None
      ensures selected.None? ==>
        amountText == "" && amount == None && prevAmount == None && description == ""
        && selectedCategory == None && transactionId == None
        && selectedDate == now && selectedTime == now && fullDate == now
      ensures selected.Some? ==>
        var (t, c) := selected.value;
        amountText == Format(t.amount) && amount == Some(t.amount) && prevAmount == Some(t.amount)
        && description == t.comment.GetOr("") && selectedCategory == Some(c) && transactionId == Some(t.id)
        && selectedDate == t.transactionDate && selectedTime == t.transactionDate && fullDate == t.transactionDate
    {
      this.direction := direction;
      categories := [];
      isChoosingCategory := false;
      isShowingAlert := false;
      isLoading := false;
      error := None;
      match selected {
        case Some((t, c)) =>
          amountText := Format(t.amount);
          selectedDate := t.transactionDate;
          selectedTime := t.transactionDate;
          description := t.comment.GetOr("");
          amount := Some(t.amount);
          prevAmount := Some(t.amount);
          fullDate := t.transactionDate;
          selectedCategory := Some(c);
          transactionId := Some(t.id);
          isEditing := true;
        case None =>
          amountText := "";
          amount := None;
          prevAmount := None;
          description := "";
          selectedCategory := None;
          transactionId := None;
          isEditing := false;
          selectedDate := now;
          selectedTime := now;
          fullDate := now;
      }
    }

    /** `load()`, given what `getSpecific(dir:)` returned; every failure is reported. */
    method Load(fetched: Result<seq<Category>, Failure>)
      modifies this
      ensures !isLoading
      ensures fetched.Success? ==> categories == fetched.value && error == old(error)
      ensures fetched.Failure? ==> categories == old(categories) && error == Some(Describe(fetched.error))
      ensures isEditing == old(isEditing) && transactionId == old(transactionId)
      ensures amountText == old(amountText) && amount == old(amount) && prevAmount == old(prevAmount)
      ensures selectedDate == old(selectedDate) && selectedTime == old(selectedTime) && fullDate == old(fullDate)
      ensures description == old(description) && selectedCategory == old(selectedCategory)
      ensures isChoosingCategory == old(isChoosingCategory) && isShowingAlert == old(isShowingAlert)
    {
      isLoading := true;
      match fetched {
        case Success(cs) =>
          categories := cs;
        case Failure(e) =>
          error := Some(Describe(e));
      }
      isLoading := false;
    }

    /**
      `save()`, given the answers of `getCurrentAccountId()` and of the add or
      edit call; `request` is the call made, if any. Editing unwraps the
      selected category, so it must be there.
    */
    method Save(accountId: Result<int, Failure>, sent: Result<(), Failure>, now: int)
      returns (saved: bool, request: Option<SaveRequest>)
      requires !isLoading && isEditing && accountId.Success? ==> selectedCategory.Some?
      modifies this
      ensures isEditing == old(isEditing) && transactionId == old(transactionId) && categories == old(categories)
      ensures amountText == old(amountText) && amount == old(amount) && prevAmount == old(prevAmount)
      ensures selectedDate == old(selectedDate) && selectedTime == old(selectedTime) && fullDate == old(fullDate)
      ensures description == old(description) && selectedCategory == old(selectedCategory)
      ensures isChoosingCategory == old(isChoosingCategory)
      ensures old(isLoading) ==>
        !saved && request.None? && isLoading && error == old(error) && isShowingAlert == old(isShowingAlert)
      ensures !old(isLoading) ==> !isLoading
      ensures !old(isLoading) && accountId.Failure? ==>
        !saved && request.None? && error == Some(Describe(accountId.error)) && isShowingAlert == old(isShowingAlert)
      ensures !old(isLoading) && accountId.Success? && isEditing ==>
        request == Some(Edit(transactionId.GetOr(0), selectedCategory.value.id, accountId.value,
                             amount.GetOr(Zero), fullDate, description))
      ensures !old(isLoading) && accountId.Success? && !isEditing && (amount.None? || selectedCategory.None?) ==>
        !saved && request.None? && isShowingAlert && error == old(error)
      ensures !old(isLoading) && accountId.Success? && !isEditing && amount.Some? && selectedCategory.Some? ==>
        request == Some(AddNew(MakeTransaction(0, accountId.value, selectedCategory.value.id, amount.value,
                                               fullDate, description, now, now)))
      ensures request.Some? ==> (saved <==> sent.Success?) && isShowingAlert == old(isShowingAlert)
      ensures request.Some? && sent.Failure? ==> error == Some(Describe(sent.error))
      ensures request.Some? && sent.Success? ==> error == old(error)
    {
      if isLoading {
        return false, None;
      }
      isLoading := true;
      saved := false;
      request := None;
      match accountId {
        case Failure(e) =>
          error := Some(Describe(e));
        case Success(account) =>
          if isEditing {
            request := Some(Edit(transactionId.GetOr(0), selectedCategory.value.id, account,
                                 amount.GetOr(Zero), fullDate, description));
          } else if amount.None? || selectedCategory.None? {
            isShowingAlert := true;
          } else {
            request := Some(AddNew(MakeTransaction(0, account, selectedCategory.value.id, amount.value,
                                                   fullDate, description, now, now)));
          }
          if request.Some? {
            if sent.Failure? {
              error := Some(Describe(sent.error));
            } else {
              saved := true;
            }
          }
      }
      isLoading := false;
    }

    /** `delete()`, given what `deleteTransaction(id:)` answered; `request` is the id sent, if any. */
    method Delete(sent: Result<(), Failure>) returns (request: Option<int>)
      modifies this
      ensures old(isLoading) ==> request.None? && isLoading && error == old(error)
      ensures !old(isLoading) ==>
        !isLoading
        && (request.Some? <==> amount.Some? && transactionId.Some?)
        && (request.Some? ==> request == transactionId)
        && error == (if request.Some? && sent.Failure? then Some(Describe(sent.error)) else old(error))
      ensures isEditing == old(isEditing) && transactionId == old(transactionId) && categories == old(categories)
      ensures amountText == old(amountText) && amount == old(amount) && prevAmount == old(prevAmount)
      ensures selectedDate == old(selectedDate) && selectedTime == old(selectedTime) && fullDate == old(fullDate)
      ensures description == old(description) && selectedCategory == old(selectedCategory)
      ensures isChoosingCategory == old(isChoosingCategory) && isShowingAlert == old(isShowingAlert)
    {
      request := None;
      if isLoading {
        return;
      }
      isLoading := true;
      if amount.Some? && transactionId.Some? {
        request := transactionId;
        if sent.Failure? {
          error := Some(Describe(sent.error));
        }
      }
      isLoading := false;
    }

    /** `checkInput(num:)` with the locale's separator `sep`. */
    method CheckInput(num: string, sep: char)
      modifies this
      ensures InputChange(num, sep).None? ==> amountText == old(amountText) && amount == old(amount)
      ensures InputChange(num, sep).Some? ==> (amountText, amount) == InputChange(num, sep).value
      ensures isEditing == old(isEditing) && transactionId == old(transactionId) && categories == old(categories)
      ensures prevAmount == old(prevAmount)
      ensures selectedDate == old(selectedDate) && selectedTime == old(selectedTime) && fullDate == old(fullDate)
      ensures description == old(description) && selectedCategory == old(selectedCategory)
      ensures isChoosingCategory == old(isChoosingCategory) && isShowingAlert == old(isShowingAlert)
      ensures isLoading == old(isLoading) && error == old(error)
    {
      var change := InputChange(num, sep);
      if change.Some? {
        amountText := change.value.0;
        amount := change.value.1;
      }
    }

    /** `updateDate()`: the day of `selectedDate` with the time of day of `selectedTime`, in UTC. */
    method UpdateDate()
      modifies this
      ensures StartOfDay(fullDate, 0) == StartOfDay(selectedDate, 0)
      ensures fullDate - StartOfDay(fullDate, 0) == selectedTime - StartOfDay(selectedTime, 0)
      ensures selectedDate == old(selectedDate) && selectedTime == old(selectedTime)
      ensures isEditing == old(isEditing) && transactionId == old(transactionId) && categories == old(categories)
      ensures amountText == old(amountText) && amount == old(amount) && prevAmount == old(prevAmount)
      ensures description == old(description) && selectedCategory == old(selectedCategory)
      ensures isChoosingCategory == old(isChoosingCategory) && isShowingAlert == old(isShowingAlert)
      ensures isLoading == old(isLoading) && error == old(error)
    {
      var day := StartOfDay(selectedDate, 0);
      var time := selectedTime - StartOfDay(selectedTime, 0);
      fullDate := day + time;
      StartOfDayOfSameDay(selectedDate, fullDate, 0);
    }
  }
}
