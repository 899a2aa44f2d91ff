# fmp_agent extraction core in Dafny

fmp_agent turns a scanned multiple-choice exam into structured questions. It
has two parts, and both are modelled here.

**The page-by-page workflow** (`src/workflow.py`) runs a small state graph over
the page images in two passes:

- The metadata pass does the following for each page:
  - transcribes the page;
  - asks for the page's question numbers, and stores an empty list instead of one of more than eight;
  - has the numbers reviewed;
  - detects clinical cases and optionally strips them from the text;
  - advances to the next page.
- At the last page it joins the page texts and starts the content pass.
- The content pass does the following for each page:
  - reads the page together with a neighbour;
  - extracts the text of its questions;
  - parses them, in at most three attempts, stopping once the count matches;
  - appends them, followed by placeholder questions when the count is off or numbers were skipped before the next page, as long as the total of these is below eight.
- Every model call it counts pauses for a cooldown after each 1000 calls.

**The HTTP mapping layers** turn a final state into the endpoint's response.

- `src/gapi.py` does the following:
  - cleans option texts of their letter prefix (`A)`, `B.`, `C -`, …);
  - copies the clinical cases;
  - turns each page's question range into zero-based numbers, or an empty list for a rejected page.
- `src/api.py` maps each document question and groups questions by clinical-case text.
- `src/gemini_workflow.py` expands each clinical-case span into its inclusive range of numbers. It counts calls with a cooldown every 10 calls.

The language model is an oracle. Each reply is an input value, and the page-by-page workflow consumes its replies, in call order, from a sequence. A missing reply or one of the wrong shape is a model error. LangGraph's dispatch becomes an explicit successor function (`Graph.Next`) and a driver loop limited to 120 node executions.

The files are:

- `wrappers.dfy`: `Option` and `Result`.
- `models.dfy`: the records.
- `builtins.dfy`: Python's `range`, `abs`, `strip`, `"\n".join`, `split("\n")` and `str(n)`.
- `quota.dfy`: the cooldown arithmetic.
- `graph.dfy`: nodes and edges.
- `pages.dfy`: the pure per-page bookkeeping.
- `workflow.dfy`: the state, the step methods, the retry loop and the driver.
- `gemini_workflow.dfy`, `gapi.dfy` and `api.dfy`: the mapping layers.

## Model

| member | source | states |
|---|---|---|
| Quota.CooldownCountStep | src/workflow.py:578-584 | One more call adds a cooldown exactly when the new count is a multiple of the quota, so n calls from zero give n / quota cooldowns. |
| Quota.CooldownSpacing | src/workflow.py:582 | With a quota above one, the calls right before and right after a cooldown do not pause. |
| Graph.Next | src/workflow.py:54-107 | The run ends iff the current node is the end or the content pass has just finished the last page. No edge leads back to the start or to the unregistered page-text review. |
| Graph.AfterClinicalCases | src/workflow.py:60-76 | After clinical-case detection the graph goes to case removal, to advancing or to concatenation, and nowhere else. |
| Graph.AfterClinicalCasesRoutes | src/workflow.py:60-76 | After clinical-case detection the graph routes as follows: stripping iff the page has a case and is not the last page; advancing iff it is not the last page and has no case; concatenation iff it is the last page. |
| Graph.AdvanceRoutesOnPhase | src/workflow.py:100-107 | Advancing leads back to text extraction iff the phase is still the page-text phase, and to question extraction iff it is the question phase. |
| Graph.NextIsRegistered | src/workflow.py:36-107 | Every successor of a registered node is registered or the end. |
| Graph.TextExtractionEdgeDangles | src/workflow.py:55 | As written, the only edge leaving text extraction ends at a node the graph never registers. |
| Graph.StaticEdgesAgreeWithNext | src/workflow.py:54-89 | Each unconditional edge between registered nodes is the one `Next` takes. The dangling edge is the only one `Next` replaces, and it is replaced by the edge to number detection. |
| Pages.GuardNumbers | src/workflow.py:290 | The stored list has at most 8 numbers. It equals the detected list iff that list has at most 8 numbers, and it is empty otherwise. |
| Pages.ReviewedEntryAsWritten | src/workflow.py:321 | As written, the review stores a number list iff the reply has at most 8 numbers, and then stores it unchanged. Otherwise it stores a non-list. |
| Pages.NineReviewedNumbersLeaveNoList | src/workflow.py:321 | A review reply of nine numbers leaves a non-list in the map where line 290 would store an empty list. |
| Pages.NumbersBefore | src/workflow.py:191-195 | The count of numbers on earlier pages is zero iff every earlier page with a list has an empty one. |
| Pages.StartNumber | src/workflow.py:190-197 | The start number is at least 1. |
| Pages.StartNumberBounds | src/workflow.py:190-197 | With every list guarded, page i starts at most at 8i + 1. |
| Pages.StartNumberReadsEarlierPages | src/workflow.py:191-195 | The start number of page i depends only on which earlier pages have lists and on how long those lists are. |
| Pages.StartNumberMonotone | src/workflow.py:190-197 | A later page never starts from a smaller number. |
| Pages.Window | src/workflow.py:422-430 | The window holds page i's text whole, at its start or at its end. |
| Pages.WindowIsJoinOfNeighbours | src/workflow.py:422-430 | The window of page i is the newline join of min(2, n) consecutive page texts that contain page i. When no text holds a newline, splitting the window gives those pages back. |
| Pages.TwoPagesShareOneWindow | src/workflow.py:422-428 | With two pages, both pages read the same window, page 0 + "\n" + page 1. |
| Pages.NumbersOf | src/workflow.py:508 | The numbers of the parsed questions, one per question, in order. |
| Pages.MissingNumbers | src/workflow.py:520 | The missing list is at most as long as the expected list. A number is in it iff it is expected and was not returned. |
| Pages.MissingNumbersOfConcat | src/workflow.py:520 | The missing list distributes over concatenation of the expected numbers, so it keeps the expected order. |
| Pages.MissingNumbersEmpty | src/workflow.py:520 | Nothing is missing iff every expected number was returned. |
| Pages.FillingQuestion | src/workflow.py:555-556 | A placeholder has number 0, the text "Filling Question" and exactly 5 options "Filling Option". |
| Pages.FillingQuestions | src/workflow.py:556 | n placeholders, all equal to the placeholder question. |
| Pages.NextPageFirstNumber | src/workflow.py:540-544 | There is a next first number iff a next page exists and has a non-empty list; it is that list's first element. |
| Pages.CrossPageGap | src/workflow.py:538-550 | A gap is counted iff this page has numbers, the next first number is known and it exceeds the last number by 2 to 7. The gap is then the count of numbers skipped in between. |
| Pages.CountDifference | src/workflow.py:534-550 | The total is zero iff the parse returned as many questions as expected and no numbers were skipped before the next page. It is never below the gap. |
| Pages.FillingCount | src/workflow.py:533-556 | Fewer than 8 placeholders. There are placeholders iff the count difference plus the gap is strictly between 0 and 8, and then their number is exactly that total. |
| Pages.MergePageQuestions | src/workflow.py:563-566 | The new list is the old list unchanged, then the parsed questions, then only placeholders, with the length adding up. |
| Pages.ReconciliationExample | src/workflow.py:534-556 | A page expects 5, 6, 7, two questions come back, and the next page starts at 9: this gives two placeholders. |
| Pages.CompletePageIsNotFilled | src/workflow.py:534-556 | A full parse whose next page continues the numbering gets no placeholder. |
| Pages.SkippedNumbersAreFilled | src/workflow.py:534-556 | A full parse followed by a jump of d (2 ≤ d ≤ 7) gets d - 1 placeholders. |
| Pages.SurplusIsAlsoFilled | src/workflow.py:534 | A parse that returns k (0 < k < 8) more questions than expected also gets k placeholders, because the difference is absolute. |
| Pages.LargeDifferenceIsNotFilled | src/workflow.py:554 | A total of 8 or more appends the parsed questions alone. |
| Pages.MergedPages | src/workflow.py:563-566 | The question list the content pass builds from one parse per page, merged in page order. No parse gives the empty list. |
| Pages.MergedPagesAppend | src/workflow.py:563-566 | Parsing one more page appends that page's merge to the list built from the pages before it. |
| Pages.MergedPagesOfPrefix | src/workflow.py:563-566 | The list built from the first j pages is a prefix of the list built from all pages, so later pages never change earlier ones. |
| Pages.ContinuousPagesGetNoPlaceholders | src/workflow.py:534-566 | Two pages numbered 1–3 and 4–5, each parsed completely, give exactly the two parses back to back: no placeholder is added at the page boundary. |
| Pages.PageParseFollowsEarlierPages | src/workflow.py:563-566 | Page k's parsed questions appear whole in the final list, right after everything the pages before it contributed. |
| Workflow.ExtractionState.constructor | src/models.py:42-61 | The initial state: page-text phase, cursor 0, every list and map empty, and the given images. |
| Workflow.ParseOutcomesExclusive | src/workflow.py:483-523 | The same replies never both complete a parse and break it down. |
| Workflow.Workflow.constructor | src/workflow.py:24-25 | Zero calls, zero cooldowns and a quota of 1000. |
| Workflow.Workflow.HandleQuota | src/workflow.py:578-584 | Adds exactly one call and pauses iff the new count is a multiple of 1000. It keeps cooldowns = calls / 1000. |
| Workflow.Workflow.Invoke | src/workflow.py:229 | A model call takes the next pending reply and fails when none is left. |
| Workflow.Workflow.ExtractPageTextStep | src/workflow.py:187-245 | Fails with an index error iff the cursor is past the images. On success it appends the reply's text, uses one reply and one counted call, and reports the start number of the page. |
| Workflow.Workflow.ExtractQuestionsNumbersStep | src/workflow.py:247-294 | Fails with an index error iff the page has no text. On success it stores the guarded reply list under the page and uses one uncounted reply. |
| Workflow.Workflow.ReviewQuestionsNumbersStep | src/workflow.py:296-325 | Fails with a key error iff the page has no list. On success it stores the guarded reviewed list. |
| Workflow.Workflow.ExtractClinicalCasesStep | src/workflow.py:336-374 | Fails with an index error iff the page has no text. On success it records the reply's cases under the page and counts one call. |
| Workflow.Workflow.RemoveClinicalCasesStep | src/workflow.py:376-406 | An index error iff the page has no text; a key error iff it has text but no case entry. On success it overwrites exactly this page's text. |
| Workflow.Workflow.AdvancePageStep | src/workflow.py:327-334 | Below the last page it adds exactly one to the cursor and keeps the phase. Otherwise it keeps the cursor and switches to the question phase. |
| Workflow.Workflow.ConcatenatePagesTextStep | src/workflow.py:408-418 | Sets the cursor to 0, sets the joined text to the newline join of the page texts and switches to the question phase. The page texts are unchanged. |
| Workflow.Workflow.ExtractQuestionsUsingNumbersStep | src/workflow.py:420-465 | An index error iff the page has no text; a key error iff it has no list. Builds the page's window and records the reply's question text under the page. |
| Workflow.Workflow.ParsePageQuestions | src/workflow.py:478-523 | Makes at most 3 counted attempts and stops at the first whose count matches; when the attempts run out it keeps the last answer. Each retry carries exactly the missing numbers of the attempt before it. It fails only when the model breaks down within the attempts. |
| Workflow.Workflow.ExtractEachPageQuestionsStep | src/workflow.py:468-576 | A key error iff the page lacks question text or a list. On success the question list becomes the merge of the old list, the parsed questions and the placeholders for this page. |
| Workflow.Workflow.Step | src/workflow.py:30-107 | Running a node under the driver invariant fails only with a model error (or an index error when there are no pages). Otherwise the invariant holds for the node the graph routes to. Every node but the content-pass parsing node leaves the question list unchanged. That node adds exactly one page parse, which the pending replies produce, and appends that page's merge to the list. |
| Workflow.Workflow.ReadingStep | src/workflow.py:35-46 | The same promise for the start node and the page-reading nodes (transcription, numbers, review, clinical cases and their removal), none of which touches the question list. |
| Workflow.Workflow.ParsingStep | src/workflow.py:41-46 | The same promise for advancing, concatenation and the two parsing nodes. None of them fails with an index error, and only the last one changes the question list. |
| Workflow.Workflow.RunExtractPageText | src/workflow.py:187-245 | Transcription under the driver invariant fails only with a model error, or an index error when there are no pages. Otherwise it appends the reply's text to the page texts, uses one reply and counts one call, and the invariant holds for the next node. |
| Workflow.Workflow.RunExtractQuestionsNumbers | src/workflow.py:247-294 | Number detection under the invariant fails only with a model error. Otherwise the page's entry becomes the guarded reply list, one reply is used, and the invariant holds for the next node. |
| Workflow.Workflow.RunReviewQuestionsNumbers | src/workflow.py:296-325 | Number review under the invariant fails only with a model error. Otherwise the page's entry becomes the guarded reviewed list, one reply is used, and the invariant holds for the next node. |
| Workflow.Workflow.RunExtractClinicalCases | src/workflow.py:336-374 | Clinical-case detection under the invariant fails only with a model error. Otherwise the reply's cases are recorded under the page, one reply is used, one call is counted, and the invariant holds for the node the graph routes to. |
| Workflow.Workflow.RunRemoveClinicalCases | src/workflow.py:376-406 | Case removal under the invariant fails only with a model error. Otherwise exactly this page's text is replaced by the reply's text, one reply is used, and the invariant holds for the next node. |
| Workflow.Workflow.RunAdvancePage | src/workflow.py:327-334 | Advancing under the invariant cannot fail and keeps the invariant for the node chosen by the phase. |
| Workflow.Workflow.RunConcatenatePagesText | src/workflow.py:408-418 | Concatenation under the invariant cannot fail and starts the content pass at page 0 with no page parsed. |
| Workflow.Workflow.RunExtractQuestionsUsingNumbers | src/workflow.py:420-465 | Question-text extraction under the invariant fails only with a model error. Otherwise the reply's question text is recorded under the page, one reply is used, and the invariant holds for the parsing node. |
| Workflow.Workflow.RunExtractEachPageQuestions | src/workflow.py:468-576 | Parsing under the invariant fails only with a model error. Otherwise it adds one page parse, produced by the pending replies, and appends that page's merge. The invariant then holds for advancing or the end. |
| Workflow.MergedNodeKeepsInv | src/workflow.py:563-566 | Once page i's merge is appended, the question list is the merge of pages 0 … i in order, and the invariant holds for the node after the parsing node. |
| Workflow.Workflow.Run | src/workflow.py:586-610 | A successful run read every page: there is at least one page, one text per page, a list of at most 8 numbers for every page and none for other keys, and the joined text. Since each page takes 8 node executions, it had at most 15 pages. Its question list is the merge of exactly one parse per page, in page order. A failure is a model error, the step limit, or an index error for an empty document. |
| GeminiWorkflow.ClinicalCaseOfSpan | src/gemini_workflow.py:332-337 | Keeps the span's text, has type "clinicalCase" and no images. Its numbers are empty iff the end is before the start. |
| GeminiWorkflow.SpanNumbersAreInclusiveRange | src/gemini_workflow.py:334 | The numbers are exactly start … end inclusive, counting up by one, with end - start + 1 of them. |
| GeminiWorkflow.ExpandClinicalCases | src/gemini_workflow.py:330-338 | One response per span, in span order. |
| GeminiWorkflow.GeminiWorkflow.constructor | src/gemini_workflow.py:25-26 | Zero calls, zero cooldowns and a quota of 10. |
| GeminiWorkflow.GeminiWorkflow.HandleQuota | src/gemini_workflow.py:354-360 | Adds exactly one call and pauses iff the new count is a multiple of 10. |
| GeminiWorkflow.GeminiWorkflow.ExtractDocumentClinicalCaseStep | src/gemini_workflow.py:292-347 | Replaces the state's clinical cases by the expansion of the reported spans and counts one call. |
| Gapi.IsOptionPrefix | src/gapi.py:95 | The pattern as a predicate: an upper-case letter, one mark or one of the pairs, then whitespace only. It is a definition, with no contract of its own; `Gapi.PrefixLengthIsLongestMatch` states what it constrains. |
| Gapi.PrefixLength | src/gapi.py:95 | The substitution removes nothing or at least two characters, never more than the text holds. |
| Gapi.PrefixLengthIsLongestMatch | src/gapi.py:95 | What is removed is matched by the pattern, and no longer prefix is. |
| Gapi.StripOptionPrefix | src/gapi.py:95 | The cleaned option is a suffix of the stripped text. It is either the stripped text itself or at least two characters shorter. |
| Gapi.OptionTextLosesLongestPrefix | src/gapi.py:95 | The cleaned option is the stripped text without its longest matching prefix, and is only stripped when no prefix matches. |
| Gapi.OnlyOnePrefixIsRemoved | src/gapi.py:95 | Exactly one prefix is removed: for a letter, ")", a space and a text with no surrounding whitespace, the option text is that text, even when it starts with a prefix of its own ("A) B. x" becomes "B. x"). |
| Gapi.OptionResponseOf | src/gapi.py:93-98 | The option carries the cleaned text and is not correct, with no justification and no images. |
| Gapi.QuestionResponseOf | src/gapi.py:89-101 | Keeps the question text, with empty explanation and tag, and one cleaned option per source option in order. |
| Gapi.ClinicalCaseCopy | src/gapi.py:80-85 | Keeps the numbers and the text, with type "clinicalCase" and no images. |
| Gapi.Flagged | src/gapi.py:109 | An instructions page or a corrections-table page. It is a definition, with no contract of its own; `Gapi.PageEntry` states what it constrains. |
| Gapi.PageEntry | src/gapi.py:107-113 | Fails iff the page is unflagged and its range is empty. A non-empty entry is start-1 … end-1 of an unflagged page with 1 ≤ start and at most 9 numbers. The entry is empty iff the page is flagged, has more than 9 numbers, or starts below 1. |
| Gapi.AcceptedPageMembership | src/gapi.py:107 | An accepted page lists exactly the numbers from start - 1 to end - 1. |
| Gapi.CopyClinicalCases | src/gapi.py:78-85 | One copy per clinical case, in order. |
| Gapi.MapQuestions | src/gapi.py:88-103 | One response per question, in order. |
| Gapi.BuildPageNumbers | src/gapi.py:105-113 | Succeeds iff every page's entry does, and then has one entry per page in page order. Otherwise it fails with "list index out of range". |
| Gapi.ExtractQuestionsResponse | src/gapi.py:76-144 | A 500 "Error processing PDF: list index out of range" iff some page's entry fails. Otherwise the response has the questions in order, the total, the cases copied, an empty map, the page entries and the message. |
| Api.MappedOption | src/api.py:67-70 | Keeps the option text unchanged, not correct, with no justification and no images. |
| Api.MappedQuestion | src/api.py:61-71 | Keeps the question text, with empty explanation and tag, and one mapped option per source option in order. |
| Api.NumbersSharingCase | src/api.py:77 | Every listed number belongs to a question with that case text. |
| Api.SharingQuestionIsListed | src/api.py:77 | Every question with that case text has its number listed. |
| Api.NumbersSharingCaseOfOne | src/api.py:77 | A single question is listed iff its case text is the given one, and then as its own number. |
| Api.NumbersSharingCaseOfConcat | src/api.py:77 | The list for a concatenation is the list for the first part followed by the list for the second, so numbers keep document order and repeats. |
| Api.CaseResponse | src/api.py:75-81 | Keeps the case text, with type "clinicalCase", no images and the numbers sharing the text. |
| Api.DistinctCases | src/api.py:75-83 | The listed case texts are pairwise distinct and non-empty. |
| Api.DistinctCasesMembership | src/api.py:75 | A text is listed iff it is non-empty and some question has it. |
| Api.DistinctCasesOfPrefix | src/api.py:75-83 | The cases of a prefix of the document are a prefix of the list, so cases appear in order of first mention. |
| Api.ListedCaseHasNumbers | src/api.py:75-83 | Every listed case has at least one question number. |
| Api.ExtractQuestionsResponse | src/api.py:55-93 | One mapped response per question, in order, and the total. One case response per distinct non-empty text, in order of first mention. The page map and page numbers are empty, plus the message. |

## Left out

- Model calls, prompts and template rendering: each reply is an input. Token-usage printing and all `print` output are not modelled.
- `src/utils/pdf.py`, base64 decoding, temporary files and the FastAPI applications are not part of this model. The endpoints start from the final workflow state.
- `asyncio.sleep` is a cooldown counter, not time.
- LangGraph's compilation and dispatch are replaced by `Graph.Next` and a loop of at most 120 node executions.
- The never-registered steps `_suggest_page_fixes_step` and `_review_page_text_step` are left out. So are `pages_fixes_map`, `pages_text_cleaned` and `formatted_questions`, which the modelled steps do not use.
- The `elif` at src/workflow.py:559 is unreachable because its list is always empty. The list built at src/workflow.py:526 is only printed.
- The removal of backticks from the window before it goes into the prompt (src/workflow.py:453) only shapes the prompt, so it is left out.
- Of `src/gemini_workflow.py`, only the clinical-case step and `handle_quota` are modelled. Its other steps, its graph and `run` are not part of this model. `DocumentExtractionState` holds only the field that step writes.
- `src/api.py` calls the document workflow with arguments its shown `run` does not accept. That call is left out, and the `Document` is an input. A clinical case of `None` is modelled as the empty text, which `src/api.py` treats the same way.
- Map keys are the page index as a number, where `src/workflow.py` uses its decimal string.
- Workflow.Workflow.Run: states that the final question list is the merge of one parse per page, in page order (`Pages.MergedPages`). It does not name which replies produced each page's parse; `Workflow.Workflow.Step` states that per page.
- Workflow.Workflow.ExtractPageTextStep: returns the start number the prompt is given, but the prompt itself is not modelled.
- Python's `\s`, `isspace` and `strip` are modelled on one whitespace set (`Builtins.IsSpace`). Unicode case rules do not matter because the pattern's letters are ASCII `A`–`Z`.

## Findings

| source | as written | input that shows it | evidently intended | confidence | as-written member | corrected member |
|---|---|---|---|---|---|---|
| src/workflow.py:321 | When the review returns more than 8 numbers, the map receives the class `PageQuestionsNumbers` itself, not an instance. Later reads of `.question_numbers` (lines 192, 474) then fail or misbehave. | A review reply of nine numbers 1…9 | Store an empty list, as number detection does at line 290 | not executed | Pages.NineReviewedNumbersLeaveNoList | Pages.GuardNumbers |
| src/workflow.py:55 | The only edge leaving text extraction goes to "review_page_text". That node's registration is commented out at line 37. | Any document: the successor of text extraction is not a registered node | Go on to number detection, as the edge at line 56 does | not executed | Graph.TextExtractionEdgeDangles | Graph.NextIsRegistered |
