/** The response mapping of the document-level extraction endpoint: options
    lose their letter prefix, clinical cases are copied, and each page's data
    becomes the zero-based numbers of its questions, or an empty list when the
    page is flagged or its range is implausible. */
module Gapi {
  import opened Wrappers
  import opened Models
  import opened Builtins

  // ---------------------------------------------------------------------------
  // Option prefix
  // ---------------------------------------------------------------------------

  predicate IsUpper(c: char)
  {
    'A' <= c <= 'Z'
  }

  /** The single characters the pattern accepts after the letter. */
  predicate IsMark(c: char)
  {
    c == ')' || c == '-' || c == '\\' || c == '.'
  }

  /** Every character of `p` from index `i` on is whitespace. */
  ghost predicate SpacesFrom(p: string, i: nat)
  {
    forall k :: i <= k < |p| ==> IsSpace(p[k])
  }

  /** The strings the prefix pattern matches: an uppercase letter, then one of
      `)`, `-`, `\`, `.` or one of the pairs " -", ". ", "- ", then any run of
      whitespace. */
  ghost predicate IsOptionPrefix(p: string)
  {
    && |p| >= 2 && IsUpper(p[0])
    && (|| (IsMark(p[1]) && SpacesFrom(p, 2))
        || (&& |p| >= 3
            && ((p[1] == ' ' && p[2] == '-') || (p[1] == '.' && p[2] == ' ') || (p[1] == '-' && p[2] == ' '))
            && SpacesFrom(p, 3)))
  }

  /** How many leading characters the substitution removes from the stripped
      text `t`. The pairs ". " and "- " need no case of their own: the single
      mark is tried first and the whitespace run takes the space. */
  function PrefixLength(t: string): (n: nat)
    ensures n <= |t|
    ensures n == 0 || n >= 2
  {
    if |t| >= 2 && IsUpper(t[0]) && IsMark(t[1]) then |t| - |TrimLeft(t[2..])|
    else if |t| >= 3 && IsUpper(t[0]) && t[1] == ' ' && t[2] == '-' then |t| - |TrimLeft(t[3..])|
    else 0
  }

  /** A candidate whose character at `i` is not whitespace is not matched by
      a pattern whose whitespace run starts at or before `i`. */
  lemma NotSpacesFrom(p: string, i: nat, j: nat)
    requires i <= j < |p| && !IsSpace(p[j])
    ensures !SpacesFrom(p, i)
  {
  }

  /** After a single mark, a longer prefix would have to swallow the first
      non-space character. */
  lemma MarkPrefixIsLongest(t: string, n: nat)
    requires |t| >= 2 && IsUpper(t[0]) && IsMark(t[1])
    requires PrefixLength(t) < n <= |t|
    ensures !IsOptionPrefix(t[..n])
  {
    var u := t[2..];
    var r := TrimLeft(u);
    var j := |u| - |r|;
    assert PrefixLength(t) == 2 + j;
    assert r == u[j..];
    var p := t[..n];
    assert p[2 + j] == u[j];
    NotSpacesFrom(p, 2, 2 + j);
    if j == 0 {
      assert !IsSpace(p[2]);
    } else {
      NotSpacesFrom(p, 3, 2 + j);
    }
  }

  /** The same after " -". */
  lemma DashPrefixIsLongest(t: string, n: nat)
    requires |t| >= 3 && IsUpper(t[0]) && !IsMark(t[1]) && t[1] == ' ' && t[2] == '-'
    requires PrefixLength(t) < n <= |t|
    ensures !IsOptionPrefix(t[..n])
  {
    var u := t[3..];
    var r := TrimLeft(u);
    var j := |u| - |r|;
    assert PrefixLength(t) == 3 + j;
    assert r == u[j..];
    var p := t[..n];
    assert p[3 + j] == u[j];
    assert p[1] == ' ';
    NotSpacesFrom(p, 3, 3 + j);
  }

  /** Without a letter and a mark or " -" in front, no prefix matches. */
  lemma NoPrefixMatches(t: string, n: nat)
    requires PrefixLength(t) == 0 && n <= |t|
    ensures !IsOptionPrefix(t[..n])
  {
    if n >= 2 {
      assert t[..n][1] == t[1];
    }
    if n >= 3 {
      assert t[..n][2] == t[2];
    }
  }

  /** A removed part of the form letter, `k - 1` pattern characters, then
      whitespace taken from `t[k..]`, has the whitespace the pattern needs. */
  lemma TrimmedRunIsSpace(t: string, k: nat, m: nat)
    requires k <= |t| && m == |t| - |TrimLeft(t[k..])|
    ensures k <= m <= |t| && SpacesFrom(t[..m], k)
  {
    var u := t[k..];
    var w := u[..|u| - |TrimLeft(u)|];
    assert AllSpace(w);
    assert |w| == m - k;
    var p := t[..m];
    forall i | k <= i < m
      ensures IsSpace(p[i])
    {
      assert w[i - k] == u[i - k] == t[i];
      assert IsSpace(w[i - k]);
      assert p[i] == t[i];
    }
  }

  /** The removed part is matched by the pattern. */
  lemma RemovedPrefixMatches(t: string)
    requires PrefixLength(t) > 0
    ensures IsOptionPrefix(t[..PrefixLength(t)])
  {
    var m := PrefixLength(t);
    var p := t[..m];
    if IsMark(t[1]) {
      TrimmedRunIsSpace(t, 2, m);
      assert p[0] == t[0] && p[1] == t[1];
    } else {
      TrimmedRunIsSpace(t, 3, m);
      assert p[0] == t[0] && p[1] == t[1] && p[2] == t[2];
    }
  }

  /** The removed part is the longest prefix of `t` the pattern matches, and
      nothing is removed when no prefix matches. */
  lemma PrefixLengthIsLongestMatch(t: string)
    ensures PrefixLength(t) > 0 ==> IsOptionPrefix(t[..PrefixLength(t)])
    ensures forall n :: PrefixLength(t) < n <= |t| ==> !IsOptionPrefix(t[..n])
  {
    if PrefixLength(t) > 0 {
      RemovedPrefixMatches(t);
    }
    forall n | PrefixLength(t) < n <= |t|
      ensures !IsOptionPrefix(t[..n])
    {
      if |t| >= 2 && IsUpper(t[0]) && IsMark(t[1]) {
        MarkPrefixIsLongest(t, n);
      } else if |t| >= 3 && IsUpper(t[0]) && t[1] == ' ' && t[2] == '-' {
        DashPrefixIsLongest(t, n);
      } else {
        NoPrefixMatches(t, n);
      }
    }
  }

  /** The option text the response carries: the stripped text less its
      prefix. The result is a suffix of the stripped text, shorter by at least
      two characters when anything was removed. */
  function StripOptionPrefix(s: string): (r: string)
    ensures |r| <= |Strip(s)| && r == Strip(s)[|Strip(s)| - |r|..]
    ensures r == Strip(s) || |r| + 2 <= |Strip(s)|
  {
    var t := Strip(s);
    t[PrefixLength(t)..]
  }

  /** The option text is the stripped text with the longest matching prefix
      cut off, and just the stripped text when no prefix matches. */
  lemma OptionTextLosesLongestPrefix(s: string)
    ensures var t := Strip(s);
            var cut := |t| - |StripOptionPrefix(s)|;
            && StripOptionPrefix(s) == t[cut..]
            && (cut == 0 || IsOptionPrefix(t[..cut]))
            && (forall n :: cut < n <= |t| ==> !IsOptionPrefix(t[..n]))
  {
    var t := Strip(s);
    var m := PrefixLength(t);
    assert StripOptionPrefix(s) == t[m..];
    assert |t| - |StripOptionPrefix(s)| == m;
    PrefixLengthIsLongestMatch(t);
  }

  /** A text without surrounding whitespace is its own stripped form. */
  lemma StripUnpadded(t: string)
    requires t != [] && !IsSpace(t[0]) && !IsSpace(t[|t| - 1])
    ensures Strip(t) == t
  {
    assert TrimLeft(t) == t;
  }

  /** One space in front of a text that starts with no whitespace goes. */
  lemma TrimLeftOneSpace(u: string, rest: string)
    requires u == [' '] + rest && (rest == [] || !IsSpace(rest[0]))
    ensures TrimLeft(u) == rest
  {
    assert u[1..] == rest;
  }

  /** Only one prefix goes: whatever follows the first prefix's whitespace
      stays, even when it starts with a prefix of its own (as in "A) B. x",
      which becomes "B. x"). */
  lemma OnlyOnePrefixIsRemoved(letter: char, rest: string)
    requires IsUpper(letter) && rest != [] && !IsSpace(rest[0]) && !IsSpace(rest[|rest| - 1])
    ensures StripOptionPrefix([letter, ')', ' '] + rest) == rest
  {
    var t := [letter, ')', ' '] + rest;
    assert t[0] == letter && t[1] == ')' && t[|t| - 1] == rest[|rest| - 1];
    assert t[2..] == [' '] + rest && t[3..] == rest;
    assert !IsSpace(letter);
    StripUnpadded(t);
    TrimLeftOneSpace(t[2..], rest);
    assert PrefixLength(t) == 3;
  }

  // ---------------------------------------------------------------------------
  // Questions, clinical cases and page numbers
  // ---------------------------------------------------------------------------

  /** An option of the response: the cleaned text, not correct, no
      justification, no images. */
  function OptionResponseOf(o: QuestionOption): (r: OptionResponse)
    ensures r.option == StripOptionPrefix(o.option)
    ensures !r.isCorrect && r.justification == "" && r.images == []
  {
    OptionResponse(StripOptionPrefix(o.option), false, "", [])
  }

  /** A question of the response: its text, one option per source option in
      order, empty explanation and tag. */
  function QuestionResponseOf(q: Question): (r: QuestionResponse)
    ensures r.questionString == q.question && r.explanation == "" && r.tag == ""
    ensures |r.options| == |q.options|
    ensures forall k :: 0 <= k < |q.options| ==> r.options[k] == OptionResponseOf(q.options[k])
  {
    QuestionResponse(q.question, "", "", seq(|q.options|, k requires 0 <= k < |q.options| => OptionResponseOf(q.options[k])))
  }

  /** The copy of a clinical case the response carries. */
  function ClinicalCaseCopy(c: ClinicalCaseResponse): (r: ClinicalCaseResponse)
    ensures r.questionNumbers == c.questionNumbers && r.clinicalCase == c.clinicalCase
    ensures r.kind == ClinicalCaseType && r.images == []
  {
    ClinicalCaseResponse(c.questionNumbers, c.clinicalCase, ClinicalCaseType, [])
  }

  /** Pages longer than this many questions are rejected. */
  const MaxPageQuestions: nat := 9

  /** The text of Python's error for indexing an empty list. */
  const IndexOutOfRange: string := "list index out of range"

  predicate Flagged(item: PageDataItem)
  {
    item.isInstructionsPage || item.isCorrectionsTablePage
  }

  /** The entry of `page_numbers` for one page. The range runs from
      start - 1 up to end - 1; a flagged page, a range of more than nine
      numbers or a negative first number gives an empty entry, and an
      unflagged empty range fails when its first number is read. */
  function PageEntry(item: PageDataItem): (r: Result<seq<int>, string>)
    ensures r.Failure? <==> !Flagged(item) && item.endQuestionNumber < item.startQuestionNumber
    ensures r.Failure? ==> r.error == IndexOutOfRange
    ensures r.Success? && r.value != [] ==>
              && !Flagged(item)
              && 1 <= item.startQuestionNumber <= item.endQuestionNumber
              && item.endQuestionNumber - item.startQuestionNumber < MaxPageQuestions
              && |r.value| == item.endQuestionNumber - item.startQuestionNumber + 1
              && forall k :: 0 <= k < |r.value| ==> r.value[k] == item.startQuestionNumber - 1 + k
    ensures r == Success([]) <==>
              || Flagged(item)
              || item.endQuestionNumber - item.startQuestionNumber + 1 > MaxPageQuestions
              || (item.startQuestionNumber <= item.endQuestionNumber && item.startQuestionNumber < 1)
  {
    var sequence := Range(item.startQuestionNumber - 1, item.endQuestionNumber);
    if Flagged(item) || |sequence| > MaxPageQuestions then Success([])
    else if sequence == [] then Failure(IndexOutOfRange)
    else if sequence[0] < 0 then Success([])
    else Success(sequence)
  }

  /** An accepted page lists every zero-based number of its range and nothing else. */
  lemma AcceptedPageMembership(item: PageDataItem, x: int)
    requires PageEntry(item).Success? && PageEntry(item).value != []
    ensures x in PageEntry(item).value <==> item.startQuestionNumber - 1 <= x < item.endQuestionNumber
  {
    RangeMembership(item.startQuestionNumber - 1, item.endQuestionNumber, x);
  }

  /** Copy the clinical cases, one per case, in order. */
  method CopyClinicalCases(cases: seq<ClinicalCaseResponse>) returns (list: seq<ClinicalCaseResponse>)
    ensures |list| == |cases|
    ensures forall k :: 0 <= k < |cases| ==> list[k] == ClinicalCaseCopy(cases[k])
  {
    list := [];
    for i := 0 to |cases|
      invariant |list| == i
      invariant forall k :: 0 <= k < i ==> list[k] == ClinicalCaseCopy(cases[k])
    {
      list := list + [ClinicalCaseCopy(cases[i])];
    }
  }

  /** Map the questions, one response per question, in order. */
  method MapQuestions(questions: seq<Question>) returns (list: seq<QuestionResponse>)
    ensures |list| == |questions|
    ensures forall k :: 0 <= k < |questions| ==> list[k] == QuestionResponseOf(questions[k])
  {
    list := [];
    for i := 0 to |questions|
      invariant |list| == i
      invariant forall k :: 0 <= k < i ==> list[k] == QuestionResponseOf(questions[k])
    {
      list := list + [QuestionResponseOf(questions[i])];
    }
  }

  /** Build `page_numbers`, one entry per page in page order; the first page
      whose entry fails makes the whole build fail. */
  method BuildPageNumbers(pages: seq<PageDataItem>) returns (r: Result<seq<seq<int>>, string>)
    ensures r.Success? <==> forall k :: 0 <= k < |pages| ==> PageEntry(pages[k]).Success?
    ensures r.Success? ==>
              && |r.value| == |pages|
              && forall k :: 0 <= k < |pages| ==> r.value[k] == PageEntry(pages[k]).value
    ensures r.Failure? ==> r.error == IndexOutOfRange
  {
    var numbers: seq<seq<int>> := [];
    for i := 0 to |pages|
      invariant |numbers| == i
      invariant forall k :: 0 <= k < i ==> PageEntry(pages[k]).Success? && numbers[k] == PageEntry(pages[k]).value
    {
      var entry := PageEntry(pages[i]);
      if entry.Failure? {
        return Failure(entry.error);
      }
      numbers := numbers + [entry.value];
    }
    r := Success(numbers);
  }

  /** The name the handler gives every uploaded document. */
  const DocumentName: string := "document.pdf"

  function SuccessMessage(count: nat): string
  {
    "Successfully extracted " + NatToString(count) + " questions from " + DocumentName
  }

  /** The mapping part of the endpoint, from the final workflow state's
      clinical cases, questions and page data to the response, or to a 500
      error when a page's range is empty. */
  method ExtractQuestionsResponse(cases: seq<ClinicalCaseResponse>, questions: seq<Question>, pages: seq<PageDataItem>)
    returns (r: Result<ExtractionResponse, HttpError>)
    ensures r.Failure? <==> exists k :: 0 <= k < |pages| && PageEntry(pages[k]).Failure?
    ensures r.Failure? ==> r.error == HttpError(500, "Error processing PDF: " + IndexOutOfRange)
    ensures r.Success? ==>
              var e := r.value;
              && e.success && e.totalQuestions == |questions| == |e.questions|
              && (forall k :: 0 <= k < |questions| ==> e.questions[k] == QuestionResponseOf(questions[k]))
              && |e.clinicalCases| == |cases|
              && (forall k :: 0 <= k < |cases| ==> e.clinicalCases[k] == ClinicalCaseCopy(cases[k]))
              && e.pagesQuestionsMap == map[]
              && |e.pageNumbers| == |pages|
              && (forall k :: 0 <= k < |pages| ==> e.pageNumbers[k] == PageEntry(pages[k]).value)
              && e.message == SuccessMessage(|questions|)
  {
    var clinicalCases := CopyClinicalCases(cases);
    var questionResponses := MapQuestions(questions);
    var pageNumbers := BuildPageNumbers(pages);
    if pageNumbers.Failure? {
      return Failure(HttpError(500, "Error processing PDF: " + pageNumbers.error));
    }
    r := Success(ExtractionResponse(
      true, |questionResponses|, questionResponses, clinicalCases, map[], pageNumbers.value,
      SuccessMessage(|questionResponses|)));
  }
}
