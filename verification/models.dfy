/** The records the extraction core passes around. The first group mirrors the
    pydantic models of src/models.py; the second holds the records that the
    HTTP handlers import from the same module but that it does not declare in
    the version modelled here, reduced to the fields the handlers read or write. */
module Models {

  // ---- Records of src/models.py ----

  /** `QuestionOption`: one answer choice. */
  datatype QuestionOption = QuestionOption(option: string)

  /** `Question`: number 0 marks a synthesized placeholder. */
  datatype Question = Question(question: string, options: seq<QuestionOption>, number: int)

  /** The two values `ExtractionState.current_phase` takes ("extract_page_text",
      the initial value, and "extract_each_page_questions"). */
  datatype Phase = ExtractPageTextPhase | ExtractEachPageQuestionsPhase

  // ---- Records the HTTP layer relies on ----

  datatype OptionResponse = OptionResponse(option: string, isCorrect: bool, justification: string, images: seq<string>)

  datatype QuestionResponse = QuestionResponse(questionString: string, explanation: string, tag: string, options: seq<OptionResponse>)

  /** `ClinicalCaseResponse`; the Python field `type` is called `kind` here. */
  datatype ClinicalCaseResponse = ClinicalCaseResponse(questionNumbers: seq<int>, clinicalCase: string, kind: string, images: seq<string>)

  datatype ExtractionResponse = ExtractionResponse(
    success: bool,
    totalQuestions: nat,
    questions: seq<QuestionResponse>,
    clinicalCases: seq<ClinicalCaseResponse>,
    pagesQuestionsMap: map<string, seq<int>>,
    pageNumbers: seq<seq<int>>,
    message: string)

  /** One item of `PageDataOutput.data`: the question range and flags of a page. */
  datatype PageDataItem = PageDataItem(
    startQuestionNumber: int,
    endQuestionNumber: int,
    isInstructionsPage: bool,
    isCorrectionsTablePage: bool)

  /** One item of `DocumentClinicalCaseOutput.data`: a clinical-case text and the
      inclusive span of question numbers it covers. */
  datatype DocumentClinicalCase = DocumentClinicalCase(clinicalCase: string, startQuestionNumber: int, endQuestionNumber: int)

  /** A question of the `Document` the newer workflow returns: it carries its
      own number and the clinical-case text it belongs to ("" for none). */
  datatype DocumentQuestion = DocumentQuestion(question: string, options: seq<QuestionOption>, questionNumber: int, clinicalCase: string)

  datatype Document = Document(questions: seq<DocumentQuestion>)

  const ClinicalCaseType: string := "clinicalCase"

  /** The error an HTTP handler raises: a status code and a detail text. */
  datatype HttpError = HttpError(statusCode: nat, detail: string)
}
