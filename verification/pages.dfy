/** The pure per-page bookkeeping of the extraction workflow: the guard on
    detected question numbers, the running start number, the text window of
    the content pass, the missing-number feedback of the parse retries, and the
    placeholder questions that reconcile a page's count. */
module Pages {
  import opened Wrappers
  import opened Models
  import opened Builtins

  /** A page may list at most this many question numbers. */
  const MaxPageNumbers: nat := 8

  // ---------------------------------------------------------------------------
  // Number-detection guard

  /** What number detection stores for a page: the detected list when it has at
      most eight numbers, and the empty list otherwise. */
  function GuardNumbers(nums: seq<int>): (r: seq<int>)
    ensures |r| <= MaxPageNumbers
    ensures r == nums <==> |nums| <= MaxPageNumbers
    ensures r != nums ==> r == []
  {
    if |nums| <= MaxPageNumbers then nums else []
  }

  /** What the review of the numbers stores as written: the detected list, or,
      when it is too long, the model class itself rather than an instance. */
  datatype StoredNumbers = NumberList(questionNumbers: seq<int>) | ModelClass

  function ReviewedEntryAsWritten(nums: seq<int>): (r: StoredNumbers)
    ensures r.NumberList? <==> |nums| <= MaxPageNumbers
    ensures r.NumberList? ==> r.questionNumbers == nums
  {
    if |nums| <= MaxPageNumbers then NumberList(nums) else ModelClass
  }

  /** A review that returns nine numbers leaves no number list behind as
      written, where number detection stores the empty list. */
  lemma NineReviewedNumbersLeaveNoList()
    ensures !ReviewedEntryAsWritten([1, 2, 3, 4, 5, 6, 7, 8, 9]).NumberList?
    ensures GuardNumbers([1, 2, 3, 4, 5, 6, 7, 8, 9]) == []
  {
  }

  /** Every list the map holds respects the guard. */
  ghost predicate ListsBounded(m: map<nat, seq<int>>)
  {
    forall k :: k in m ==> |m[k]| <= MaxPageNumbers
  }

  // ---------------------------------------------------------------------------
  // Running start number

  /** How many question numbers the pages before page i hold (pages without an
      entry count zero). */
  function NumbersBefore(m: map<nat, seq<int>>, i: nat): (r: nat)
    ensures r == 0 <==> forall j :: 0 <= j < i && j in m ==> m[j] == []
  {
    if i == 0 then 0 else NumbersBefore(m, i - 1) + (if i - 1 in m then |m[i - 1]| else 0)
  }

  /** The number text extraction is told to start from on page i. */
  function StartNumber(m: map<nat, seq<int>>, i: nat): (r: int)
    ensures r >= 1
  {
    NumbersBefore(m, i) + 1
  }

  /** With every list guarded, the start number of page i is at most 8i + 1. */
  lemma {:induction false} StartNumberBounds(m: map<nat, seq<int>>, i: nat)
    requires ListsBounded(m)
    ensures 1 <= StartNumber(m, i) <= MaxPageNumbers * i + 1
  {
    if i > 0 {
      StartNumberBounds(m, i - 1);
    }
  }

  /** The start number of page i depends only on the lengths of the lists of
      the pages before it. */
  lemma {:induction false} StartNumberReadsEarlierPages(m: map<nat, seq<int>>, m': map<nat, seq<int>>, i: nat)
    requires forall k :: 0 <= k < i ==> (k in m <==> k in m') && (k in m ==> |m[k]| == |m'[k]|)
    ensures StartNumber(m, i) == StartNumber(m', i)
  {
    if i > 0 {
      StartNumberReadsEarlierPages(m, m', i - 1);
    }
  }

  /** Later pages never start from a smaller number. */
  lemma {:induction false} StartNumberMonotone(m: map<nat, seq<int>>, i: nat, j: nat)
    requires i <= j
    ensures StartNumber(m, i) <= StartNumber(m, j)
  {
    if i < j {
      StartNumberMonotone(m, i, j - 1);
    }
  }

  // ---------------------------------------------------------------------------
  // Content-pass text window

  /** The text window used to recover the questions of page i: the page with the
      next one, or, for the last page, the previous page with it. */
  function Window(pages: seq<string>, i: nat): (r: string)
    requires i < |pages|
    ensures |pages[i]| <= |r|
    ensures r[..|pages[i]|] == pages[i] || r[|r| - |pages[i]|..] == pages[i]
  {
    if i == 0 then
      if |pages| > 1 then pages[0] + "\n" + pages[1] else pages[0]
    else if i == |pages| - 1 then pages[i - 1] + "\n" + pages[i]
    else pages[i] + "\n" + pages[i + 1]
  }

  /** Where the window of page i starts, among n pages, and how many pages it
      spans. */
  function WindowStart(n: nat, i: nat): nat
    requires i < n
  {
    if i == 0 then 0 else if i == n - 1 then i - 1 else i
  }

  function WindowWidth(n: nat): nat
  {
    if n == 1 then 1 else 2
  }

  /** The window is the newline join of min(2, n) consecutive page texts that
      include page i; when no text holds a newline, splitting the window gives
      exactly those pages back. */
  lemma WindowIsJoinOfNeighbours(pages: seq<string>, i: nat)
    requires i < |pages|
    ensures var lo, w := WindowStart(|pages|, i), WindowWidth(|pages|);
      && lo <= i < lo + w <= |pages|
      && Window(pages, i) == Join(pages[lo..lo + w])
      && ((forall k :: 0 <= k < |pages| ==> NoNewline(pages[k])) ==> Split(Window(pages, i)) == pages[lo..lo + w])
  {
    var lo, w := WindowStart(|pages|, i), WindowWidth(|pages|);
    var slice := pages[lo..lo + w];
    assert slice[1..] == pages[lo + 1..lo + w];
    assert Window(pages, i) == Join(slice);
    if forall k :: 0 <= k < |pages| ==> NoNewline(pages[k]) {
      SplitJoin(slice);
    }
  }

  /** With two pages, both pages use the same window. */
  lemma TwoPagesShareOneWindow(pages: seq<string>)
    requires |pages| == 2
    ensures Window(pages, 0) == Window(pages, 1) == pages[0] + "\n" + pages[1]
  {
  }

  // ---------------------------------------------------------------------------
  // Parse retries

  /** The numbers of parsed questions, in order. */
  function NumbersOf(qs: seq<Question>): (r: seq<int>)
    ensures |r| == |qs|
    ensures forall k :: 0 <= k < |qs| ==> r[k] == qs[k].number
  {
    if qs == [] then [] else [qs[0].number] + NumbersOf(qs[1..])
  }

  /** The expected numbers a parse did not return, in expected order. */
  function MissingNumbers(expected: seq<int>, returned: seq<int>): (r: seq<int>)
    ensures |r| <= |expected|
    ensures forall x :: x in r <==> x in expected && x !in returned
  {
    if expected == [] then []
    else (if expected[0] in returned then [] else [expected[0]]) + MissingNumbers(expected[1..], returned)
  }

  /** Missing numbers of a concatenation are the concatenation of the missing
      numbers: the expected order is kept. */
  lemma {:induction false} MissingNumbersOfConcat(a: seq<int>, b: seq<int>, returned: seq<int>)
    ensures MissingNumbers(a + b, returned) == MissingNumbers(a, returned) + MissingNumbers(b, returned)
  {
    if a != [] {
      assert (a + b)[0] == a[0];
      assert (a + b)[1..] == a[1..] + b;
      MissingNumbersOfConcat(a[1..], b, returned);
    } else {
      assert a + b == b;
    }
  }

  /** Nothing is missing exactly when every expected number was returned. */
  lemma MissingNumbersEmpty(expected: seq<int>, returned: seq<int>)
    ensures MissingNumbers(expected, returned) == [] <==> forall x :: x in expected ==> x in returned
  {
    var r := MissingNumbers(expected, returned);
    if r != [] {
      var y := r[0];
      assert y in r;
      assert y in expected && y !in returned;
    } else {
      forall x | x in expected
        ensures x in returned
      {
        assert x !in r;
      }
    }
  }

  // ---------------------------------------------------------------------------
  // Placeholder questions and the ordered merge

  const FillingQuestionText: string := "Filling Question"
  const FillingOptionText: string := "Filling Option"
  const FillingOptionCount: nat := 5
  /** Placeholders are only produced for a total strictly below this. */
  const FillingLimit: nat := 8

  /** The placeholder question: number 0, the fixed text, five fixed options. */
  function FillingQuestion(): (q: Question)
    ensures q.number == 0 && q.question == FillingQuestionText
    ensures |q.options| == FillingOptionCount
    ensures forall k :: 0 <= k < |q.options| ==> q.options[k].option == FillingOptionText
  {
    Question(FillingQuestionText, seq(FillingOptionCount, _ => QuestionOption(FillingOptionText)), 0)
  }

  function FillingQuestions(n: nat): (r: seq<Question>)
    ensures |r| == n
    ensures forall k :: 0 <= k < n ==> r[k] == FillingQuestion()
  {
    seq(n, _ => FillingQuestion())
  }

  /** The first number expected on the next page, when there is a next page
      whose list is known and not empty. */
  function NextPageFirstNumber(m: map<nat, seq<int>>, i: nat, pageCount: nat): (r: Option<int>)
    ensures r.Some? <==> i + 1 < pageCount && i + 1 in m && m[i + 1] != []
    ensures r.Some? ==> r.value == m[i + 1][0]
  {
    if i + 1 < pageCount && i + 1 in m && m[i + 1] != [] then Some(m[i + 1][0]) else None
  }

  /** The numbers skipped between this page's last expected number and the next
      page's first one, counted only for a jump of 2 to 7. */
  function CrossPageGap(expected: seq<int>, nextFirst: Option<int>): (g: nat)
    ensures g > 0 <==> expected != [] && nextFirst.Some? && 1 < nextFirst.value - expected[|expected| - 1] < 8
    ensures g > 0 ==> g == nextFirst.value - expected[|expected| - 1] - 1
  {
    if expected != [] && nextFirst.Some? then
      var diff := nextFirst.value - expected[|expected| - 1];
      if 1 < diff < 8 then diff - 1 else 0
    else 0
  }

  /** The total the content pass compares against the placeholder limit. */
  function CountDifference(expected: seq<int>, returnedCount: nat, nextFirst: Option<int>): (r: nat)
    ensures r == 0 <==> returnedCount == |expected| && CrossPageGap(expected, nextFirst) == 0
    ensures r >= CrossPageGap(expected, nextFirst)
  {
    Abs(|expected| - returnedCount) + CrossPageGap(expected, nextFirst)
  }

  /** How many placeholders a page receives. */
  function FillingCount(expected: seq<int>, returnedCount: nat, nextFirst: Option<int>): (n: nat)
    ensures n < FillingLimit
    ensures n > 0 <==> 0 < CountDifference(expected, returnedCount, nextFirst) < FillingLimit
    ensures n > 0 ==> n == CountDifference(expected, returnedCount, nextFirst)
  {
    var total := CountDifference(expected, returnedCount, nextFirst);
    if 0 < total < FillingLimit then total else 0
  }

  /** The questions list after a page is reconciled: the earlier entries, then
      the page's parsed questions, then its placeholders. */
  function MergePageQuestions(existing: seq<Question>, parsed: seq<Question>, expected: seq<int>, nextFirst: Option<int>): (r: seq<Question>)
    ensures |r| == |existing| + |parsed| + FillingCount(expected, |parsed|, nextFirst)
    ensures r[..|existing|] == existing
    ensures r[|existing|..|existing| + |parsed|] == parsed
    ensures forall k :: |existing| + |parsed| <= k < |r| ==> r[k] == FillingQuestion()
  {
    existing + parsed + FillingQuestions(FillingCount(expected, |parsed|, nextFirst))
  }

  /** Page expects 5, 6, 7; the last parse returned two questions; the next page
      starts at 9: one short plus one skipped gives two placeholders. */
  lemma ReconciliationExample(parsed: seq<Question>)
    requires |parsed| == 2
    ensures FillingCount([5, 6, 7], |parsed|, Some(9)) == 2
  {
  }

  /** A page parsed in full whose next page continues the numbering (or which
      has no next list) receives no placeholder. */
  lemma CompletePageIsNotFilled(expected: seq<int>, nextFirst: Option<int>)
    requires expected == [] || nextFirst.None? || nextFirst.value <= expected[|expected| - 1] + 1
    ensures FillingCount(expected, |expected|, nextFirst) == 0
  {
  }

  /** A page parsed in full still receives one placeholder per number skipped
      before the next page, for a jump of 2 to 7. */
  lemma SkippedNumbersAreFilled(expected: seq<int>, d: int)
    requires expected != [] && 1 < d < 8
    ensures FillingCount(expected, |expected|, Some(expected[|expected| - 1] + d)) == d - 1
  {
  }

  /** The count difference is an absolute value: a parse that returns k more
      questions than expected, 0 < k < 8, also receives k placeholders. */
  lemma SurplusIsAlsoFilled(expected: seq<int>, k: nat)
    requires 0 < k < FillingLimit
    ensures FillingCount(expected, |expected| + k, None) == k
  {
  }

  /** A total of eight or more leaves the page without placeholders: only the
      parsed questions are appended. */
  lemma LargeDifferenceIsNotFilled(existing: seq<Question>, parsed: seq<Question>, expected: seq<int>, nextFirst: Option<int>)
    requires CountDifference(expected, |parsed|, nextFirst) >= FillingLimit
    ensures MergePageQuestions(existing, parsed, expected, nextFirst) == existing + parsed
  {
  }

  // ---------------------------------------------------------------------------
  // The content pass over all pages

  /** The question list once the content pass has merged pages 0 to
      |parses| - 1, one after the other in page order, page k with the
      questions parsed for it. */
  function MergedPages(m: map<nat, seq<int>>, pageCount: nat, parses: seq<seq<Question>>): (r: seq<Question>)
    requires forall k :: 0 <= k < |parses| ==> k in m
    ensures parses == [] ==> r == []
    decreases |parses|
  {
    if parses == [] then []
    else
      var k := |parses| - 1;
      MergePageQuestions(MergedPages(m, pageCount, parses[..k]), parses[k], m[k], NextPageFirstNumber(m, k, pageCount))
  }

  /** Merging one more page extends the list by that page's merge. */
  lemma MergedPagesAppend(m: map<nat, seq<int>>, pageCount: nat, parses: seq<seq<Question>>, parsed: seq<Question>)
    requires forall k :: 0 <= k <= |parses| ==> k in m
    ensures MergedPages(m, pageCount, parses + [parsed])
            == MergePageQuestions(MergedPages(m, pageCount, parses), parsed, m[|parses|],
                                  NextPageFirstNumber(m, |parses|, pageCount))
  {
    assert (parses + [parsed])[..|parses|] == parses;
  }

  /** Merging more pages only appends: the list after the first j pages is a
      prefix of the list after all of them. */
  lemma {:induction false} MergedPagesOfPrefix(m: map<nat, seq<int>>, pageCount: nat, parses: seq<seq<Question>>, j: nat)
    requires forall k :: 0 <= k < |parses| ==> k in m
    requires j <= |parses|
    ensures MergedPages(m, pageCount, parses[..j]) <= MergedPages(m, pageCount, parses)
    decreases |parses| - j
  {
    if j < |parses| {
      MergedPagesOfPrefix(m, pageCount, parses, j + 1);
      var q := parses[..j + 1];
      assert q[..j] == parses[..j];
    } else {
      assert parses[..j] == parses;
    }
  }

  /** Page k's parsed questions stand in the final list right after what the
      pages before it contributed: each page is merged once, in page order. */
  lemma PageParseFollowsEarlierPages(m: map<nat, seq<int>>, pageCount: nat, parses: seq<seq<Question>>, k: nat)
    requires forall j :: 0 <= j < |parses| ==> j in m
    requires k < |parses|
    ensures var before := |MergedPages(m, pageCount, parses[..k])|;
            var all := MergedPages(m, pageCount, parses);
            && before + |parses[k]| <= |all|
            && all[before..before + |parses[k]|] == parses[k]
  {
    var q := parses[..k + 1];
    assert q[..k] == parses[..k] && q[k] == parses[k];
    MergedPagesOfPrefix(m, pageCount, parses, k + 1);
  }

  /** Two pages numbered 1, 2, 3 and 4, 5, each parsed completely: the
      numbering continues across the page boundary, so the final list is the
      two parses back to back, without a placeholder. */
  lemma ContinuousPagesGetNoPlaceholders(p0: seq<Question>, p1: seq<Question>)
    requires NumbersOf(p0) == [1, 2, 3] && NumbersOf(p1) == [4, 5]
    ensures MergedPages(map[0 := [1, 2, 3], 1 := [4, 5]], 2, [p0, p1]) == p0 + p1
  {
    var m: map<nat, seq<int>> := map[0 := [1, 2, 3], 1 := [4, 5]];
    assert NextPageFirstNumber(m, 0, 2) == Some(4);
    assert NextPageFirstNumber(m, 1, 2) == None;
    MergedPagesAppend(m, 2, [], p0);
    MergedPagesAppend(m, 2, [p0], p1);
    assert [] + [p0] == [p0] && [p0] + [p1] == [p0, p1];
  }
}
