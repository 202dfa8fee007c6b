/**
  Finance/Screens/CategoriesView/CategoriesViewModel.swift: the category list
  with its search field. The result of the categories service is the
  parameter of `Load`.
*/
module CategoriesViewModelModule {
  import opened Wrappers
  import opened Text
  import opened Structs
  import opened Tables
  import opened SubsequenceSearch
  import opened NetworkClient

  /** `CharacterSet.whitespacesAndNewlines`: the Unicode `White_Space` characters. */
  predicate IsWhitespaceOrNewline(c: char) {
    '\t' <= c <= '\r' || c == ' ' || c == '\U{0085}' || c == '\U{00A0}' || c == '\U{1680}'
    || '\U{2000}' <= c <= '\U{200A}' || c == '\U{2028}' || c == '\U{2029}' || c == '\U{202F}'
    || c == '\U{205F}' || c == '\U{3000}'
  }

  function TrimLeading(s: string): (r: string)
    ensures r == [] || !IsWhitespaceOrNewline(r[0])
    ensures r == [] <==> forall i :: 0 <= i < |s| ==> IsWhitespaceOrNewline(s[i])
  {
    if s == [] then []
    else if IsWhitespaceOrNewline(s[0]) then
      var r := TrimLeading(s[1..]);
      assert forall i :: 0 < i < |s| ==> s[i] == s[1..][i - 1];
      r
    else s
  }

  function TrimTrailing(s: string): (r: string)
    ensures r == [] || !IsWhitespaceOrNewline(r[|r| - 1])
    ensures r == [] <==> forall i :: 0 <= i < |s| ==> IsWhitespaceOrNewline(s[i])
    ensures |r| <= |s| && r == s[..|r|]
  {
    if s == [] then []
    else if IsWhitespaceOrNewline(s[|s| - 1]) then
      var r := TrimTrailing(s[..|s| - 1]);
      assert forall i :: 0 <= i < |s| - 1 ==> s[i] == s[..|s| - 1][i];
      r
    else s
  }

  /** `trimmingCharacters(in: .whitespacesAndNewlines)`. */
  function Trim(s: string): (r: string)
    ensures r == [] <==> forall i :: 0 <= i < |s| ==> IsWhitespaceOrNewline(s[i])
    ensures r != [] ==> !IsWhitespaceOrNewline(r[0]) && !IsWhitespaceOrNewline(r[|r| - 1])
  {
    TrimTrailing(TrimLeading(s))
  }

  type Item = (string, char)

  function NameAndEmoji(c: Category): Item {
    (c.name, c.emoji)
  }

  function NameMatches(searchText: string): Item -> bool {
    (item: Item) => Matches(searchText, item.0)
  }

  /** `applySearch()`: everything for a blank search, else the items whose name contains `searchText` as a subsequence. */
  function SearchResult(all: seq<Item>, searchText: string): (r: seq<Item>)
    ensures IsSublist(r, all)
  {
    if Trim(searchText) == [] then
      SublistRefl(all);
      all
    else
      FilterIsSublist(all, NameMatches(searchText));
      Filter(all, NameMatches(searchText))
  }

  /** A blank search shows every category. */
  lemma BlankSearchShowsAll(all: seq<Item>, searchText: string)
    requires forall i :: 0 <= i < |searchText| ==> IsWhitespaceOrNewline(searchText[i])
    ensures SearchResult(all, searchText) == all
  {
  }

  /** The predicate "the name holds `searchText` as a case-insensitive subsequence". */
  ghost function NameHolds(searchText: string): Item -> bool {
    (item: Item) => IsSubsequenceCI(searchText, item.0)
  }

  /**
    Otherwise exactly the categories whose name holds the untrimmed search
    text as a case-insensitive subsequence, every copy of them, in order.
  */
  lemma SearchKeepsMatches(all: seq<Item>, searchText: string)
    requires exists i :: 0 <= i < |searchText| && !IsWhitespaceOrNewline(searchText[i])
    ensures SearchResult(all, searchText) == Filter(all, NameHolds(searchText))
    ensures forall x :: x in SearchResult(all, searchText) <==> x in all && IsSubsequenceCI(searchText, x.0)
  {
    forall i | 0 <= i < |all|
      ensures NameMatches(searchText)(all[i]) == NameHolds(searchText)(all[i])
    {
      MatchesIffSubsequence(searchText, all[i].0);
    }
    FilterSame(all, NameMatches(searchText), NameHolds(searchText));
  }

  /** The filter sees the search text before trimming: a leading space must be matched. */
  lemma SearchUsesUntrimmedText()
    ensures Trim(" a") == "a"
    ensures SearchResult([("a", 'x')], "a") == [("a", 'x')]
    ensures SearchResult([("a", 'x')], " a") == []
  {
    assert TrimLeading(" a") == "a";
    assert !Matches(" a", "a");
  }

  class CategoriesViewModel {
    var categories: seq<Item>
    var searchText: string
    var isLoading: bool
    var error: Option<string>
    var allCategories: seq<Item>

    constructor ()
      ensures categories == [] && searchText == [] && !isLoading && error == None && allCategories == []
    {
      categories := [];
      searchText := [];
      isLoading := false;
      error := None;
      allCategories := [];
    }

    method ApplySearch()
      modifies this
      ensures categories == SearchResult(allCategories, searchText)
      ensures allCategories == old(allCategories) && searchText == old(searchText)
      ensures isLoading == old(isLoading) && error == old(error)
    {
      categories := SearchResult(allCategories, searchText);
    }

    /** `load()`, given what `categoriesService.getAll()` returned. */
    method Load(fetched: Result<seq<Category>, Failure>)
      modifies this
      ensures !isLoading
      ensures fetched.Success? ==>
        error == None && allCategories == Map(fetched.value, NameAndEmoji)
        && categories == SearchResult(allCategories, searchText)
      ensures fetched.Failure? ==>
        allCategories == old(allCategories) && categories == old(categories)
        && error == (if fetched.error.Cancelled? then None else Some(Describe(fetched.error)))
      ensures searchText == old(searchText)
    {
      isLoading := true;
      error := None;
      match fetched {
        case Success(all) =>
          allCategories := Map(all, NameAndEmoji);
          ApplySearch();
        case Failure(e) =>
          if !e.Cancelled? {
            error := Some(Describe(e));
          }
      }
      isLoading := false;
    }
  }
}
