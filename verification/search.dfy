/** `SearchService`: a case-insensitive title search over fixed mock data,
    an operation log, and the demonstrations of stream operators. Each
    pipeline is modelled by the value it produces and the log entries it
    writes, taken in order as if every delay had already elapsed. */
module Search {
  import opened Common
  import Text
  import Seqs

  datatype SearchResult = SearchResult(id: int, title: String, category: String)

  const MockData: seq<SearchResult> := [
    SearchResult(1, "Angular Fundamentals", "Framework"),
    SearchResult(2, "RxJS Operators Guide", "Library"),
    SearchResult(3, "TypeScript Basics", "Language"),
    SearchResult(4, "Angular Routing", "Framework"),
    SearchResult(5, "Angular Forms", "Framework"),
    SearchResult(6, "RxJS Subjects", "Library"),
    SearchResult(7, "Angular Services", "Framework"),
    SearchResult(8, "TypeScript Generics", "Language"),
    SearchResult(9, "Angular Testing", "Framework"),
    SearchResult(10, "RxJS Error Handling", "Library")
  ]

  /** The service's only state: its operation log. */
  datatype SearchService = SearchService(operationLog: seq<String>)

  const Initial := SearchService([])

  /** `"${s}"` inside a log entry. */
  function Quoted(s: String): String {
    "\"" + s + "\""
  }

  // ---------------------------------------------------------------------
  // Log access

  /** `getOperationLog()`: a copy of the log, which for an immutable
      sequence is the log itself. */
  function GetOperationLog(s: SearchService): seq<String> {
    s.operationLog
  }

  function ClearLog(s: SearchService): (r: SearchService)
    ensures GetOperationLog(r) == []
  {
    SearchService([])
  }

  function Push(s: SearchService, entry: String): SearchService {
    SearchService(s.operationLog + [entry])
  }

  // ---------------------------------------------------------------------
  // search(term)

  predicate TitleMatches(r: SearchResult, term: String) {
    Text.IncludesIgnoreCase(r.title, term)
  }

  /** The results of `search(term)`: the mock entries whose title contains
      the term, ignoring case, in their original order. */
  function SearchResults(term: String): (r: seq<SearchResult>)
    ensures Seqs.IsSubsequence(r, MockData)
    ensures forall x :: x in r <==> x in MockData && TitleMatches(x, term)
  {
    var r := Seqs.Filter(MockData, x => TitleMatches(x, term));
    Seqs.FilterElements(MockData, x => TitleMatches(x, term));
    forall x | x in r
      ensures x in MockData && TitleMatches(x, term)
    {
      var i :| 0 <= i < |r| && r[i] == x;
    }
    forall x | x in MockData && TitleMatches(x, term)
      ensures x in r
    {
      var i :| 0 <= i < |MockData| && MockData[i] == x;
    }
    r
  }

  function CallEntry(term: String): String {
    "API call: search(" + Quoted(term) + ")"
  }

  function ResultsEntry(n: nat): String {
    "Results: " + Text.NatToString(n) + " items found"
  }

  /** `search(term)`: logs the call, filters, then logs the number of
      results. */
  function DoSearch(s: SearchService, term: String): (r: (SearchService, seq<SearchResult>))
    ensures r.1 == SearchResults(term)
    ensures GetOperationLog(r.0) == GetOperationLog(s) + [CallEntry(term), ResultsEntry(|r.1|)]
  {
    var results := SearchResults(term);
    (Push(Push(s, CallEntry(term)), ResultsEntry(|results|)), results)
  }

  /** The count in the "Results" entry reads back as the number of results. */
  lemma {:induction false} ResultsEntryCounts(s: SearchService, term: String)
    ensures var (s', results) := DoSearch(s, term);
      var log := GetOperationLog(s');
      && |log| == |s.operationLog| + 2
      && log[..|s.operationLog|] == s.operationLog
      && Text.ParseInt(Last(log)[9..|Last(log)| - 12]) == Some(|results|)
  {
    var (s', results) := DoSearch(s, term);
    var log := GetOperationLog(s');
    var digits := Text.NatToString(|results|);
    assert Last(log) == ResultsEntry(|results|);
    assert Last(log)[9..|Last(log)| - 12] == digits;
    Text.IntToStringRoundTrip(|results|);
  }

  /** An empty term matches every title. */
  lemma {:induction false} EmptyTermFindsAll()
    ensures SearchResults("") == MockData
  {
    forall i | 0 <= i < |MockData|
      ensures TitleMatches(MockData[i], "")
    {
      Text.IncludesEmpty(Text.Lower(MockData[i].title));
    }
    Seqs.FilterKeepsAll(MockData, x => TitleMatches(x, ""));
  }

  // ---------------------------------------------------------------------
  // Operator demonstrations

  /** `${xs.join(', ')}` for integers. */
  function JoinInts(xs: seq<int>): String {
    Text.Join(seq(|xs|, i requires 0 <= i < |xs| => Text.IntToString(xs[i])), ", ")
  }

  /** `arr.map(x => x * 2)`. */
  function Doubled(xs: seq<int>): (r: seq<int>)
    ensures |r| == |xs| && forall i :: 0 <= i < |xs| ==> r[i] == 2 * xs[i]
  {
    seq(|xs|, i requires 0 <= i < |xs| => xs[i] * 2)
  }

  /** `arr.map(x => `Value: ${x}`)`. */
  function ValueLabels(xs: seq<int>): (r: seq<String>)
    ensures |r| == |xs| && forall i :: 0 <= i < |xs| ==> r[i] == "Value: " + Text.IntToString(xs[i])
  {
    seq(|xs|, i requires 0 <= i < |xs| => "Value: " + Text.IntToString(xs[i]))
  }

  /** The source of `demoMap()`. */
  const MapSource: seq<int> := [1, 2, 3, 4, 5]

  /** `demoMap()`. */
  function DemoMap(s: SearchService): (r: (SearchService, seq<String>))
    ensures r.1 == ValueLabels(Doubled(MapSource))
    ensures GetOperationLog(r.0) ==
      ["Source: [1, 2, 3, 4, 5]", "Operator: map(x => x * 2)", "Result: [" + Text.Join(r.1, ", ") + "]"]
  {
    var result := ValueLabels(Doubled(MapSource));
    var s1 := Push(Push(ClearLog(s), "Source: [1, 2, 3, 4, 5]"), "Operator: map(x => x * 2)");
    (Push(s1, "Result: [" + Text.Join(result, ", ") + "]"), result)
  }

  /** `x % 2 === 0`; JavaScript's remainder takes the sign of the dividend,
      which makes no difference to a test against zero. */
  predicate IsEven(x: int) {
    x % 2 == 0
  }

  /** The source of `demoFilter()`: the integers 1 to 10. */
  const FilterSource: seq<int> := Consecutive(1, 10)

  /** `demoFilter()`. */
  function DemoFilter(s: SearchService): (r: (SearchService, seq<int>))
    ensures r.1 == Seqs.Filter(FilterSource, IsEven)
    ensures GetOperationLog(r.0) ==
      ["Source: [1, 2, 3, 4, 5, 6, 7, 8, 9, 10]", "Operator: filter(x => x % 2 === 0)", "Result: [" + JoinInts(r.1) + "]"]
  {
    var result := Seqs.Filter(FilterSource, IsEven);
    var s1 := Push(Push(ClearLog(s), "Source: [1, 2, 3, 4, 5, 6, 7, 8, 9, 10]"), "Operator: filter(x => x % 2 === 0)");
    (Push(s1, "Result: [" + JoinInts(result) + "]"), result)
  }

  /** `demoTap()`: the side effects see 42, the result is 84. */
  function DemoTap(s: SearchService): (r: (SearchService, int))
    ensures r.1 == 2 * 42
    ensures GetOperationLog(r.0) == [
      "Source: of(42)",
      "Operator: tap(x => console.log(x))",
      "tap: Side effect - value is " + Text.IntToString(42),
      "tap: Could log, save to storage, etc.",
      "tap: After map - value is now " + Text.IntToString(r.1)]
  {
    var value := 42;
    var s1 := Push(Push(ClearLog(s), "Source: of(42)"), "Operator: tap(x => console.log(x))");
    var s2 := Push(Push(s1, "tap: Side effect - value is " + Text.IntToString(value)), "tap: Could log, save to storage, etc.");
    var doubled := value * 2;
    (Push(s2, "tap: After map - value is now " + Text.IntToString(doubled)), doubled)
  }

  const ErrorMessage: String := "Simulated error!"
  const Recovered: String := "Recovered from error!"
  const Success: String := "Success!"

  /** `demoCatchError(shouldFail)`: a failing source skips the processing
      step and is replaced by the fallback value. */
  function DemoCatchError(s: SearchService, shouldFail: bool): (r: (SearchService, String))
    ensures r.1 == (if shouldFail then Recovered else Success)
    ensures |GetOperationLog(r.0)| == if shouldFail then 5 else 4
    ensures GetOperationLog(r.0)[..2] == [
      "Source: " + (if shouldFail then "throwError()" else "of(\"Success\")"),
      "Operator: catchError(err => of(\"Recovered\"))"]
    ensures shouldFail ==> GetOperationLog(r.0)[2..] == [
      "catchError: Caught " + Quoted(ErrorMessage),
      "catchError: Returning fallback value",
      "Final result: " + Recovered]
    ensures !shouldFail ==> GetOperationLog(r.0)[2..] == ["Processing...", "Final result: " + Success]
  {
    var s1 := Push(Push(ClearLog(s), "Source: " + (if shouldFail then "throwError()" else "of(\"Success\")")),
                   "Operator: catchError(err => of(\"Recovered\"))");
    if shouldFail then
      var s2 := Push(Push(s1, "catchError: Caught " + Quoted(ErrorMessage)), "catchError: Returning fallback value");
      (Push(s2, "Final result: " + Recovered), Recovered)
    else
      (Push(Push(s1, "Processing..."), "Final result: " + Success), Success)
  }

  /** `demoMap` yields the doubled source values as labels. */
  lemma DemoMapValue(s: SearchService)
    ensures DemoMap(s).1 == ["Value: 2", "Value: 4", "Value: 6", "Value: 8", "Value: 10"]
  {
    EvenNumerals();
    assert Doubled(MapSource) == [2, 4, 6, 8, 10];
    var labels := ValueLabels([2, 4, 6, 8, 10]);
    assert labels[0] == "Value: 2" && labels[1] == "Value: 4" && labels[2] == "Value: 6";
    assert labels[3] == "Value: 8" && labels[4] == "Value: 10";
  }

  /** The decimal renderings of the even numbers up to ten. */
  lemma EvenNumerals()
    ensures Text.IntToString(2) == "2" && Text.IntToString(4) == "4" && Text.IntToString(6) == "6"
    ensures Text.IntToString(8) == "8" && Text.IntToString(10) == "10"
  {
    assert Text.NatToString(10) == "10" by {
      assert Text.NatToString(1) == "1";
    }
  }

  /** The `n` consecutive integers starting at `lo`. */
  function Consecutive(lo: int, n: nat): (r: seq<int>)
    ensures |r| == n && forall i :: 0 <= i < n ==> r[i] == lo + i
  {
    seq(n, i requires 0 <= i < n => lo + i)
  }

  /** The even numbers among the `2 * n` integers from the odd number
      `2 * a + 1` on are the `n` even numbers from `2 * a + 2` on. */
  lemma {:induction false} EvensOfConsecutive(a: int, n: nat)
    ensures Seqs.Filter(Consecutive(2 * a + 1, 2 * n), IsEven) == seq(n, i requires 0 <= i < n => 2 * (a + 1 + i))
    decreases n
  {
    var xs := Consecutive(2 * a + 1, 2 * n);
    if n > 0 {
      EvensOfConsecutive(a + 1, n - 1);
      var rest := Consecutive(2 * (a + 1) + 1, 2 * (n - 1));
      assert xs[1..][1..] == rest;
      assert Seqs.Filter(xs, IsEven) == [2 * (a + 1)] + Seqs.Filter(rest, IsEven);
    }
  }

  /** The even values among 1..10. */
  lemma EvensUpToTen()
    ensures Seqs.Filter(FilterSource, IsEven) == [2, 4, 6, 8, 10]
  {
    EvensOfConsecutive(0, 5);
    var evens := seq(5, i requires 0 <= i < 5 => 2 * (0 + 1 + i));
    assert evens[0] == 2 && evens[1] == 4 && evens[2] == 6 && evens[3] == 8 && evens[4] == 10;
  }

  /** `demoFilter` keeps the even source values. */
  lemma DemoFilterValue(s: SearchService)
    ensures DemoFilter(s).1 == [2, 4, 6, 8, 10]
  {
    EvensUpToTen();
  }

  /** `demoTap` doubles 42. */
  lemma DemoTapValue(s: SearchService)
    ensures DemoTap(s).1 == 84
  {
  }

  /** Every demonstration starts from a cleared log, so what it logs does not
      depend on what was logged before. */
  lemma DemosIgnorePriorLog(s1: SearchService, s2: SearchService, shouldFail: bool)
    ensures DemoMap(s1) == DemoMap(s2)
    ensures DemoFilter(s1) == DemoFilter(s2)
    ensures DemoTap(s1) == DemoTap(s2)
    ensures DemoCatchError(s1, shouldFail) == DemoCatchError(s2, shouldFail)
    ensures DemoSwitchMapStart(s1) == DemoSwitchMapStart(s2)
  {
  }

  // ---------------------------------------------------------------------
  // switchMap and the autocomplete stream

  /** `demoSwitchMap(...)` before any term arrives. */
  function DemoSwitchMapStart(s: SearchService): (r: SearchService)
    ensures GetOperationLog(r) == ["Operator: switchMap - cancels previous requests"]
  {
    Push(ClearLog(s), "Operator: switchMap - cancels previous requests")
  }

  function DistinctEntry(term: String): String {
    "After distinctUntilChanged: " + Quoted(term)
  }

  function StartEntry(term: String): String {
    "switchMap: Starting search for " + Quoted(term)
  }

  /** The `switchMap` projection for one term: a blank term gives no
      results and no search; any other term is logged and searched. */
  function SwitchMapStep(s: SearchService, term: String): (r: (SearchService, seq<SearchResult>))
    ensures Text.Trim(term) == "" ==> r == (s, [])
    ensures Text.Trim(term) != "" ==> r == DoSearch(Push(s, StartEntry(term)), term)
  {
    if Text.Trim(term) == "" then (s, [])
    else DoSearch(Push(s, StartEntry(term)), term)
  }

  /** What one term that got through `debounceTime` and
      `distinctUntilChanged` does: the tap logs it, then the `switchMap`
      projection runs. */
  function DistinctTermStep(s: SearchService, term: String): (SearchService, seq<SearchResult>) {
    SwitchMapStep(Push(s, DistinctEntry(term)), term)
  }

  /** A term made only of whitespace never reaches the search: only the tap
      logs it. */
  lemma {:induction false} BlankTermSkipsSearch(s: SearchService, term: String)
    requires forall i :: 0 <= i < |term| ==> Text.IsWhitespace(term[i])
    ensures DistinctTermStep(s, term) == (Push(s, DistinctEntry(term)), [])
  {
    Text.TrimEmptyIff(term);
  }

  /** A term with a non-blank character is searched; the log gains the tap,
      the start of the search, the call and the result count, in that order. */
  lemma {:induction false} NonBlankTermSearches(s: SearchService, term: String, k: int)
    requires 0 <= k < |term| && !Text.IsWhitespace(term[k])
    ensures DistinctTermStep(s, term).1 == SearchResults(term)
    ensures GetOperationLog(DistinctTermStep(s, term).0) == GetOperationLog(s)
      + [DistinctEntry(term), StartEntry(term), CallEntry(term), ResultsEntry(|SearchResults(term)|)]
  {
    assert Text.Trim(term) != "" by {
      Text.TrimEmptyIff(term);
    }
    var s2 := Push(Push(s, DistinctEntry(term)), StartEntry(term));
    assert DistinctTermStep(s, term) == DoSearch(s2, term);
    assert GetOperationLog(s2) == GetOperationLog(s) + [DistinctEntry(term), StartEntry(term)];
  }

  /** `createAutoCompleteStream`: the `filter` and `switchMap` steps for one
      term that got through the debounce; a term is kept when its JavaScript
      `length`, counted in UTF-16 code units, is at least two. */
  function AutoCompleteStep(s: SearchService, term: String): (r: (SearchService, Option<seq<SearchResult>>))
    ensures r.1.Some? <==> Text.Utf16Length(term) >= 2
    ensures r.1.Some? ==> r.0 == DoSearch(s, term).0 && r.1 == Some(SearchResults(term))
    ensures r.1.None? ==> r.0 == s
  {
    if Text.Utf16Length(term) >= 2 then
      var (s', results) := DoSearch(s, term);
      (s', Some(results))
    else (s, None)
  }

  /** Which terms the autocomplete stream searches: every term of two or
      more characters, no empty term, and a one-character term exactly when
      that character takes two UTF-16 code units (an emoji, say). */
  lemma AutoCompleteLengthFilter(s: SearchService, term: String)
    ensures |term| >= 2 ==> AutoCompleteStep(s, term).1.Some?
    ensures |term| == 1 ==> (AutoCompleteStep(s, term).1.Some? <==> term[0] as int >= 0x1_0000)
    ensures term == [] ==> AutoCompleteStep(s, term).1.None?
  {
    Text.Utf16LengthBounds(term);
    if |term| == 1 {
      assert Text.Utf16Length(term) == Text.Utf16Units(term[0]) + Text.Utf16Length(term[1..]);
    }
  }

  /** For a non-blank term the stream keeps, the autocomplete stream and
      the `switchMap` demonstration find the same results, and their logs
      differ only by the demonstration's "Starting search" entry. */
  lemma AutoCompleteAgreesWithSwitchMap(s: SearchService, term: String)
    requires Text.Trim(term) != "" && Text.Utf16Length(term) >= 2
    ensures AutoCompleteStep(s, term).1 == Some(SwitchMapStep(s, term).1)
    ensures GetOperationLog(SwitchMapStep(s, term).0)
      == GetOperationLog(s) + [StartEntry(term)] + GetOperationLog(AutoCompleteStep(s, term).0)[|GetOperationLog(s)|..]
  {
    var log := GetOperationLog(AutoCompleteStep(s, term).0);
    assert log[|GetOperationLog(s)|..] == [CallEntry(term), ResultsEntry(|SearchResults(term)|)];
  }
}
