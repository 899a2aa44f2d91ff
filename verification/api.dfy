/** The response mapping of the question-level extraction endpoint: every
    document question becomes a response with its options unchanged, and every
    distinct clinical-case text becomes one clinical-case response listing the
    numbers of all questions that share it. */
module Api {
  import opened Models
  import opened Builtins

  /** An option of the response: the text as is, not correct, nothing else. */
  function MappedOption(o: QuestionOption): (r: OptionResponse)
    ensures r.option == o.option
    ensures !r.isCorrect && r.justification == "" && r.images == []
  {
    OptionResponse(o.option, false, "", [])
  }

  /** A question of the response: its text and one option per source option,
      in order. */
  function MappedQuestion(q: DocumentQuestion): (r: QuestionResponse)
    ensures r.questionString == q.question && r.explanation == "" && r.tag == ""
    ensures |r.options| == |q.options|
    ensures forall k :: 0 <= k < |q.options| ==> r.options[k] == MappedOption(q.options[k])
  {
    QuestionResponse(q.question, "", "", seq(|q.options|, k requires 0 <= k < |q.options| => MappedOption(q.options[k])))
  }

  /** The numbers of the questions whose clinical case is `text`, in document
      order. */
  function NumbersSharingCase(qs: seq<DocumentQuestion>, text: string): (r: seq<int>)
    ensures |r| <= |qs|
    ensures forall x :: x in r ==> exists k :: 0 <= k < |qs| && qs[k].clinicalCase == text && qs[k].questionNumber == x
  {
    if qs == [] then []
    else
      var rest := NumbersSharingCase(qs[1..], text);
      assert forall x :: x in rest ==> exists k :: 0 <= k < |qs| && qs[k].clinicalCase == text && qs[k].questionNumber == x by {
        forall x | x in rest
          ensures exists k :: 0 <= k < |qs| && qs[k].clinicalCase == text && qs[k].questionNumber == x
        {
          var k :| 0 <= k < |qs[1..]| && qs[1..][k].clinicalCase == text && qs[1..][k].questionNumber == x;
          assert qs[k + 1] == qs[1..][k];
        }
      }
      (if qs[0].clinicalCase == text then [qs[0].questionNumber] else []) + rest
  }

  /** Every question with the case contributes its number. */
  lemma {:induction false} SharingQuestionIsListed(qs: seq<DocumentQuestion>, text: string, k: nat)
    requires k < |qs| && qs[k].clinicalCase == text
    ensures qs[k].questionNumber in NumbersSharingCase(qs, text)
  {
    if k > 0 {
      assert qs[1..][k - 1] == qs[k];
      SharingQuestionIsListed(qs[1..], text, k - 1);
    }
  }

  /** One question lists its number exactly when it has the case text. */
  lemma NumbersSharingCaseOfOne(q: DocumentQuestion, text: string)
    ensures NumbersSharingCase([q], text) == if q.clinicalCase == text then [q.questionNumber] else []
  {
    assert [q][1..] == [];
  }

  /** The numbers of a document split in two are those of the first part
      followed by those of the second: document order, one entry per
      question. */
  lemma {:induction false} NumbersSharingCaseOfConcat(a: seq<DocumentQuestion>, b: seq<DocumentQuestion>, text: string)
    ensures NumbersSharingCase(a + b, text) == NumbersSharingCase(a, text) + NumbersSharingCase(b, text)
  {
    if a == [] {
      assert a + b == b;
    } else {
      var ab := a + b;
      assert ab[0] == a[0] && ab[1..] == a[1..] + b;
      var head := if a[0].clinicalCase == text then [a[0].questionNumber] else [];
      NumbersSharingCaseOfConcat(a[1..], b, text);
      calc {
        NumbersSharingCase(ab, text);
        head + NumbersSharingCase(a[1..] + b, text);
        head + (NumbersSharingCase(a[1..], text) + NumbersSharingCase(b, text));
        (head + NumbersSharingCase(a[1..], text)) + NumbersSharingCase(b, text);
        NumbersSharingCase(a, text) + NumbersSharingCase(b, text);
      }
    }
  }

  /** The clinical-case response for one case text. */
  function CaseResponse(qs: seq<DocumentQuestion>, text: string): (r: ClinicalCaseResponse)
    ensures r.clinicalCase == text && r.kind == ClinicalCaseType && r.images == []
    ensures r.questionNumbers == NumbersSharingCase(qs, text)
  {
    ClinicalCaseResponse(NumbersSharingCase(qs, text), text, ClinicalCaseType, [])
  }

  /** The distinct non-empty clinical-case texts, in order of first appearance. */
  function DistinctCases(qs: seq<DocumentQuestion>): (r: seq<string>)
    ensures forall i, j :: 0 <= i < j < |r| ==> r[i] != r[j]
    ensures forall c :: c in r ==> c != ""
  {
    if qs == [] then []
    else
      var prev := DistinctCases(qs[..|qs| - 1]);
      var c := qs[|qs| - 1].clinicalCase;
      if c != "" && c !in prev then prev + [c] else prev
  }

  /** A text is listed exactly when it is non-empty and some question has it. */
  lemma {:induction false} DistinctCasesMembership(qs: seq<DocumentQuestion>, c: string)
    ensures c in DistinctCases(qs) <==> c != "" && exists k :: 0 <= k < |qs| && qs[k].clinicalCase == c
  {
    if qs != [] {
      var init := qs[..|qs| - 1];
      DistinctCasesMembership(init, c);
      if exists k :: 0 <= k < |qs| && qs[k].clinicalCase == c {
        var k :| 0 <= k < |qs| && qs[k].clinicalCase == c;
        if k < |qs| - 1 {
          assert init[k] == qs[k];
        }
      }
      if exists k :: 0 <= k < |init| && init[k].clinicalCase == c {
        var k :| 0 <= k < |init| && init[k].clinicalCase == c;
        assert qs[k] == init[k];
      }
    }
  }

  /** The cases of a prefix of the document come first and in the same order:
      a case is listed where the document first mentions it. */
  lemma {:induction false} DistinctCasesOfPrefix(qs: seq<DocumentQuestion>, m: nat)
    requires m <= |qs|
    ensures DistinctCases(qs[..m]) <= DistinctCases(qs)
    decreases |qs| - m
  {
    if m < |qs| {
      DistinctCasesOfPrefix(qs, m + 1);
      assert qs[..m + 1][..m] == qs[..m];
    } else {
      assert qs[..m] == qs;
    }
  }

  /** Every listed case has at least one question number. */
  lemma ListedCaseHasNumbers(qs: seq<DocumentQuestion>, c: string)
    requires c in DistinctCases(qs)
    ensures NumbersSharingCase(qs, c) != []
  {
    DistinctCasesMembership(qs, c);
    var k :| 0 <= k < |qs| && qs[k].clinicalCase == c;
    SharingQuestionIsListed(qs, c, k);
  }

  function SuccessMessage(count: nat): string
  {
    "Successfully extracted " + NatToString(count) + " questions."
  }

  /** The mapping part of the endpoint: one response per question, one
      clinical case per distinct text, and the deprecated page fields empty. */
  method ExtractQuestionsResponse(document: Document) returns (r: ExtractionResponse)
    ensures r.success
    ensures r.totalQuestions == |r.questions| == |document.questions|
    ensures forall k :: 0 <= k < |document.questions| ==> r.questions[k] == MappedQuestion(document.questions[k])
    ensures |r.clinicalCases| == |DistinctCases(document.questions)|
    ensures forall k :: 0 <= k < |r.clinicalCases| ==>
              r.clinicalCases[k] == CaseResponse(document.questions, DistinctCases(document.questions)[k])
    ensures r.pagesQuestionsMap == map[] && r.pageNumbers == []
    ensures r.message == SuccessMessage(|document.questions|)
  {
    var qs := document.questions;
    var questionsResponse: seq<QuestionResponse> := [];
    var casesResponse: seq<ClinicalCaseResponse> := [];
    var processed: set<string> := {};
    for i := 0 to |qs|
      invariant |questionsResponse| == i
      invariant forall k :: 0 <= k < i ==> questionsResponse[k] == MappedQuestion(qs[k])
      invariant forall c :: c in processed <==> c in DistinctCases(qs[..i])
      invariant |casesResponse| == |DistinctCases(qs[..i])|
      invariant forall k :: 0 <= k < |casesResponse| ==> casesResponse[k] == CaseResponse(qs, DistinctCases(qs[..i])[k])
    {
      assert qs[..i + 1][..i] == qs[..i];
      questionsResponse := questionsResponse + [MappedQuestion(qs[i])];
      var c := qs[i].clinicalCase;
      if c != "" && c !in processed {
        casesResponse := casesResponse + [CaseResponse(qs, c)];
        processed := processed + {c};
      }
    }
    assert qs[..|qs|] == qs;
    r := ExtractionResponse(true, |questionsResponse|, questionsResponse, casesResponse, map[], [],
                            SuccessMessage(|questionsResponse|));
  }
}
