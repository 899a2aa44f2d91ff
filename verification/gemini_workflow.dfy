/** The whole-document workflow's bookkeeping: turning the clinical-case spans
    the model reports into clinical-case responses with their question
    numbers, and the same call-rate budget with a quota of ten calls. */
module GeminiWorkflow {
  import opened Models
  import opened Builtins
  import opened Quota

  /** Calls between two cooldowns in this workflow. */
  const GeminiMaxQuota: nat := 10

  /** The clinical-case response for one span: the span's text, the numbers
      from its start to its end inclusive, the clinical-case type and no
      images. */
  function ClinicalCaseOfSpan(span: DocumentClinicalCase): (r: ClinicalCaseResponse)
    ensures r.clinicalCase == span.clinicalCase
    ensures r.kind == ClinicalCaseType && r.images == []
    ensures r.questionNumbers == [] <==> span.endQuestionNumber < span.startQuestionNumber
  {
    ClinicalCaseResponse(Range(span.startQuestionNumber, span.endQuestionNumber + 1), span.clinicalCase, ClinicalCaseType, [])
  }

  /** The numbers of a span are exactly those between its ends, inclusive,
      counted up one at a time from the start. */
  lemma SpanNumbersAreInclusiveRange(span: DocumentClinicalCase, x: int)
    ensures var ns := ClinicalCaseOfSpan(span).questionNumbers;
            && (x in ns <==> span.startQuestionNumber <= x <= span.endQuestionNumber)
            && |ns| == (if span.startQuestionNumber <= span.endQuestionNumber
                        then span.endQuestionNumber - span.startQuestionNumber + 1 else 0)
            && (forall k :: 0 <= k < |ns| ==> ns[k] == span.startQuestionNumber + k)
  {
    RangeMembership(span.startQuestionNumber, span.endQuestionNumber + 1, x);
  }

  /** The part of the document state this step writes. The full state is not
      part of this model. */
  class DocumentExtractionState {
    var pagesClinicalCases: seq<ClinicalCaseResponse>

    constructor ()
      ensures pagesClinicalCases == []
    {
      pagesClinicalCases := [];
    }
  }

  /** One response per span, in span order. */
  method ExpandClinicalCases(spans: seq<DocumentClinicalCase>) returns (list: seq<ClinicalCaseResponse>)
    ensures |list| == |spans|
    ensures forall k :: 0 <= k < |spans| ==> list[k] == ClinicalCaseOfSpan(spans[k])
  {
    list := [];
    for i := 0 to |spans|
      invariant |list| == i
      invariant forall k :: 0 <= k < i ==> list[k] == ClinicalCaseOfSpan(spans[k])
    {
      list := list + [ClinicalCaseOfSpan(spans[i])];
    }
  }

  class GeminiWorkflow {
    var gLlmCalls: nat
    /** Cooldowns taken so far. */
    var cooldowns: nat
    const maxQuota: nat

    ghost predicate Valid()
      reads this
    {
      maxQuota == GeminiMaxQuota && cooldowns == gLlmCalls / maxQuota
    }

    constructor ()
      ensures Valid() && gLlmCalls == 0 && cooldowns == 0
    {
      gLlmCalls := 0;
      cooldowns := 0;
      maxQuota := GeminiMaxQuota;
    }

    /** Count one call; take a cooldown when the count hits a multiple of ten. */
    method HandleQuota() returns (slept: bool)
      requires Valid()
      modifies this`gLlmCalls, this`cooldowns
      ensures Valid()
      ensures gLlmCalls == old(gLlmCalls) + 1
      ensures slept <==> CooldownDue(gLlmCalls, maxQuota)
    {
      CooldownCountStep(gLlmCalls, maxQuota);
      gLlmCalls := gLlmCalls + 1;
      slept := gLlmCalls % maxQuota == 0;
      if slept {
        cooldowns := cooldowns + 1;
      }
    }

    /** Given the spans the model reported, replace the state's clinical cases
        by their expansion and count the call. */
    method ExtractDocumentClinicalCaseStep(state: DocumentExtractionState, spans: seq<DocumentClinicalCase>)
      requires Valid()
      modifies this`gLlmCalls, this`cooldowns, state`pagesClinicalCases
      ensures Valid()
      ensures gLlmCalls == old(gLlmCalls) + 1
      ensures |state.pagesClinicalCases| == |spans|
      ensures forall k :: 0 <= k < |spans| ==> state.pagesClinicalCases[k] == ClinicalCaseOfSpan(spans[k])
    {
      var list := ExpandClinicalCases(spans);
      state.pagesClinicalCases := list;
      var _ := HandleQuota();
    }
  }
}
