/** The page-by-page extraction workflow: the mutable extraction state, one
    method per graph node, the retry loop that parses a page's questions, the
    call-rate budget and the driver that follows the graph up to its step
    limit. The language model is an oracle: the replies it gives, in call
    order, are a sequence the workflow consumes one at a time. */
module Workflow {
  import opened Wrappers
  import opened Models
  import opened Builtins
  import opened Quota
  import opened Graph
  import opened Pages

  /** One reply of the language model, of the shape the calling step asks for. */
  datatype Reply =
    | TextReply(content: string)
    | NumbersReply(questionNumbers: seq<int>)
    | ClinicalCasesReply(clinicalCases: seq<string>)
    | QuestionsTextReply(questionsText: string)
    | QuestionsReply(questions: seq<Question>)

  /** How a step can fail: the model gives no reply or one of the wrong shape,
      a list is indexed past its end, a map is read at a missing key, or the
      driver runs out of steps. */
  datatype Error = ModelError | IndexError | KeyError | RecursionLimitError

  datatype Outcome = Pass | Fail(error: Error)

  /** Calls between two cooldowns in this workflow. */
  const MaxQuota: nat := 1000
  /** Node executions the driver allows before it gives up. */
  const RecursionLimit: nat := 120
  /** Parse attempts per page. */
  const ParseAttempts: nat := 3

  /** The state the graph threads through its nodes. Page-keyed maps are keyed
      by the page index. */
  class ExtractionState {
    var currentPhase: Phase
    const examImages: seq<string>
    var currentPageIndex: nat
    var pagesText: seq<string>
    var pagesTextConcatenated: string
    var pagesQuestionsMap: map<nat, seq<int>>
    var pagesQuestionsTextMap: map<nat, string>
    var pagesClinicalCasesMap: map<nat, seq<string>>
    var examQuestions: seq<Question>

    constructor (examImages: seq<string>)
      ensures this.examImages == examImages
      ensures currentPhase == ExtractPageTextPhase && currentPageIndex == 0
      ensures pagesText == [] && pagesTextConcatenated == ""
      ensures pagesQuestionsMap == map[] && pagesQuestionsTextMap == map[] && pagesClinicalCasesMap == map[]
      ensures examQuestions == []
    {
      this.examImages := examImages;
      currentPhase := ExtractPageTextPhase;
      currentPageIndex := 0;
      pagesText := [];
      pagesTextConcatenated := "";
      pagesQuestionsMap := map[];
      pagesQuestionsTextMap := map[];
      pagesClinicalCasesMap := map[];
      examQuestions := [];
    }

    /** The number of clinical cases recorded for the current page, 0 if none is. */
    function CaseCount(): nat
      reads this
    {
      if currentPageIndex in pagesClinicalCasesMap then |pagesClinicalCasesMap[currentPageIndex]| else 0
    }

    /** What the conditional edges read. */
    function EdgeView(): EdgeInputs
      reads this
    {
      EdgeInputs(currentPageIndex, |examImages|, CaseCount(), currentPhase)
    }
  }

  /** A parse attempt that returned questions, but not as many as expected. */
  ghost predicate FailedAttempt(r: Reply, expected: seq<int>)
  {
    r.QuestionsReply? && |r.questions| != |expected|
  }

  /** The replies `rs[..attempts]` are one successful run of the parse loop:
      every attempt before the last returned the wrong count, the last one
      returned questions, and it returned the right count unless the attempts
      ran out. `parsed` is what it returned. */
  ghost predicate ParsedBy(rs: seq<Reply>, expected: seq<int>, attempts: nat, parsed: seq<Question>)
  {
    && 1 <= attempts <= ParseAttempts && attempts <= |rs|
    && (forall k :: 0 <= k < attempts - 1 ==> FailedAttempt(rs[k], expected))
    && rs[attempts - 1].QuestionsReply?
    && (attempts < ParseAttempts ==> |rs[attempts - 1].questions| == |expected|)
    && parsed == rs[attempts - 1].questions
  }

  /** The parse loop breaks down: within the attempts allowed, after a run of
      wrong counts, the model gives no reply or a reply that is not questions. */
  ghost predicate ParseBreaksDown(rs: seq<Reply>, expected: seq<int>)
  {
    exists k :: 0 <= k < ParseAttempts && BreaksAt(rs, expected, k)
  }

  /** Attempt `k` is the one that breaks down, after `k` wrong counts. */
  ghost predicate BreaksAt(rs: seq<Reply>, expected: seq<int>, k: nat)
  {
    && (forall j :: 0 <= j < k ==> j < |rs| && FailedAttempt(rs[j], expected))
    && (k >= |rs| || !rs[k].QuestionsReply?)
  }

  /** A successful parse and a breakdown never describe the same replies. */
  lemma ParseOutcomesExclusive(rs: seq<Reply>, expected: seq<int>, attempts: nat, parsed: seq<Question>)
    requires ParsedBy(rs, expected, attempts, parsed)
    ensures !ParseBreaksDown(rs, expected)
  {
    forall k | 0 <= k < ParseAttempts
      ensures !BreaksAt(rs, expected, k)
    {
      if k >= attempts {
        assert !FailedAttempt(rs[attempts - 1], expected);
      } else if k < attempts - 1 {
        assert FailedAttempt(rs[k], expected);
      }
    }
  }

  /** Every key below `n` and no other. */
  ghost predicate KeysBelow<V>(m: map<nat, V>, n: nat)
  {
    forall k: nat :: k in m <==> k < n
  }

  /** In the page-text phase: `texts` pages transcribed, `lists` pages numbered. */
  ghost predicate Transcribing(s: ExtractionState, texts: nat, lists: nat)
    reads s
  {
    && s.currentPhase == ExtractPageTextPhase
    && |s.pagesText| == texts
    && KeysBelow(s.pagesQuestionsMap, lists)
  }

  /** In the question phase: every page transcribed and numbered, the joined
      text in place and the cursor on a page. */
  ghost predicate Parsing(s: ExtractionState)
    reads s
  {
    var n := |s.examImages|;
    && s.currentPhase == ExtractEachPageQuestionsPhase
    && n >= 1 && s.currentPageIndex < n
    && |s.pagesText| == n
    && KeysBelow(s.pagesQuestionsMap, n)
    && s.pagesTextConcatenated == Join(s.pagesText)
  }

  /** What holds when the driver is about to run `node` after `steps` node
      executions, the content pass having parsed `parses[k]` for page k. The
      lower bounds on `steps` (five steps per page to read it, three more to
      parse it) give the step limit its meaning; the question list is always
      the in-order merge of the pages parsed so far. */
  ghost predicate Inv(s: ExtractionState, node: Node, steps: nat, parses: seq<seq<Question>>)
    reads s
  {
    var n := |s.examImages|;
    var i := s.currentPageIndex;
    && ListsBounded(s.pagesQuestionsMap)
    && (forall k :: 0 <= k < |parses| ==> k in s.pagesQuestionsMap)
    && s.examQuestions == MergedPages(s.pagesQuestionsMap, n, parses)
    && match node
       case Start =>
         steps == 0 && i == 0 && Transcribing(s, 0, 0) && parses == []
       case ExtractPageText =>
         && Transcribing(s, i, i) && (n == 0 ==> i == 0) && (n > 0 ==> i < n)
         && steps >= 1 + 5 * i && parses == []
       case ExtractQuestionsNumbers =>
         i < n && Transcribing(s, i + 1, i) && steps >= 2 + 5 * i && parses == []
       case ReviewQuestionsNumbers =>
         i < n && Transcribing(s, i + 1, i + 1) && steps >= 3 + 5 * i && parses == []
       case ExtractClinicalCases =>
         i < n && Transcribing(s, i + 1, i + 1) && steps >= 4 + 5 * i && parses == []
       case RemoveClinicalCasesFromPageText =>
         && i + 1 < n && Transcribing(s, i + 1, i + 1) && i in s.pagesClinicalCasesMap
         && steps >= 5 + 5 * i && parses == []
       case AdvancePage =>
         && i + 1 < n
         && ((Transcribing(s, i + 1, i + 1) && steps >= 5 + 5 * i && parses == [])
             || (Parsing(s) && steps >= 5 * n + 3 + 3 * i && |parses| == i + 1))
       case ConcatenatePagesText =>
         n >= 1 && i == n - 1 && Transcribing(s, n, n) && steps >= 5 * n && parses == []
       case ExtractQuestionsUsingNumbers =>
         Parsing(s) && steps >= 5 * n + 1 + 3 * i && |parses| == i
       case ExtractEachPageQuestions =>
         Parsing(s) && i in s.pagesQuestionsTextMap && steps >= 5 * n + 2 + 3 * i && |parses| == i
       case End =>
         Parsing(s) && i == n - 1 && steps >= 8 * n && |parses| == n
       case ReviewPageText =>
         false
  }

  /** The parsing node's effect on the question list: one more page parse,
      produced by the replies `rs`, and the list before it extended by that
      page's merge. */
  ghost predicate PageMerged(s: ExtractionState, before: seq<Question>, rs: seq<Reply>,
                             parses: seq<seq<Question>>, parses': seq<seq<Question>>)
    reads s
  {
    var i := s.currentPageIndex;
    && |parses'| == |parses| + 1 && parses'[..|parses|] == parses
    && i in s.pagesQuestionsMap
    && (exists attempts :: ParsedBy(rs, s.pagesQuestionsMap[i], attempts, parses'[|parses|]))
    && s.examQuestions
       == MergePageQuestions(before, parses'[|parses|], s.pagesQuestionsMap[i],
                             NextPageFirstNumber(s.pagesQuestionsMap, i, |s.examImages|))
  }

  /** The nodes of the page-reading pass: the start, transcription, numbers,
      review, clinical cases and their removal. */
  predicate IsReadingNode(node: Node)
  {
    || node.Start? || node.ExtractPageText? || node.ExtractQuestionsNumbers?
    || node.ReviewQuestionsNumbers? || node.ExtractClinicalCases?
    || node.RemoveClinicalCasesFromPageText?
  }

  /** After the parsing node merged page i, the driver invariant holds for
      the node that follows it, with page i's parse added. */
  lemma MergedNodeKeepsInv(s: ExtractionState, steps: nat, parses: seq<seq<Question>>, parsed: seq<Question>)
    requires Parsing(s) && ListsBounded(s.pagesQuestionsMap)
    requires |parses| == s.currentPageIndex && steps >= 5 * |s.examImages| + 2 + 3 * s.currentPageIndex
    requires s.examQuestions
             == MergePageQuestions(MergedPages(s.pagesQuestionsMap, |s.examImages|, parses), parsed,
                                   s.pagesQuestionsMap[s.currentPageIndex],
                                   NextPageFirstNumber(s.pagesQuestionsMap, s.currentPageIndex, |s.examImages|))
    ensures Inv(s, Next(ExtractEachPageQuestions, s.EdgeView()), steps + 1, parses + [parsed])
  {
    MergedPagesAppend(s.pagesQuestionsMap, |s.examImages|, parses, parsed);
    var e := s.EdgeView();
    if s.currentPageIndex + 1 < |s.examImages| {
      assert Next(ExtractEachPageQuestions, e) == AdvancePage;
      InvAfterMergeBeforeLastPage(s, steps, parses, parsed);
    } else {
      assert Next(ExtractEachPageQuestions, e) == End;
      InvAfterMergeOnLastPage(s, steps, parses, parsed);
    }
  }

  lemma InvAfterMergeBeforeLastPage(s: ExtractionState, steps: nat, parses: seq<seq<Question>>, parsed: seq<Question>)
    requires Parsing(s) && ListsBounded(s.pagesQuestionsMap)
    requires |parses| == s.currentPageIndex && steps >= 5 * |s.examImages| + 2 + 3 * s.currentPageIndex
    requires s.examQuestions == MergedPages(s.pagesQuestionsMap, |s.examImages|, parses + [parsed])
    requires s.currentPageIndex + 1 < |s.examImages|
    ensures Inv(s, AdvancePage, steps + 1, parses + [parsed])
  {
  }

  lemma InvAfterMergeOnLastPage(s: ExtractionState, steps: nat, parses: seq<seq<Question>>, parsed: seq<Question>)
    requires Parsing(s) && ListsBounded(s.pagesQuestionsMap)
    requires |parses| == s.currentPageIndex && steps >= 5 * |s.examImages| + 2 + 3 * s.currentPageIndex
    requires s.examQuestions == MergedPages(s.pagesQuestionsMap, |s.examImages|, parses + [parsed])
    requires s.currentPageIndex + 1 >= |s.examImages|
    ensures Inv(s, End, steps + 1, parses + [parsed])
  {
  }

  /** The extraction workflow: its call counter and the model's pending replies. */
  class Workflow {
    var gLlmCalls: nat
    /** Cooldowns taken so far (each one a pause of `TimeToWait` seconds). */
    var cooldowns: nat
    const maxQuota: nat
    var replies: seq<Reply>

    ghost predicate Valid()
      reads this
    {
      maxQuota == MaxQuota && cooldowns == gLlmCalls / maxQuota
    }

    constructor (replies: seq<Reply>)
      ensures Valid()
      ensures gLlmCalls == 0 && cooldowns == 0 && this.replies == replies
    {
      gLlmCalls := 0;
      cooldowns := 0;
      maxQuota := MaxQuota;
      this.replies := replies;
    }

    /** `handle_quota`: count one call; pause when the count hits a multiple of
        the quota. The invariant says the pauses taken are the count divided by
        the quota. */
    method HandleQuota() returns (slept: bool)
      requires Valid()
      modifies this`gLlmCalls, this`cooldowns
      ensures Valid()
      ensures gLlmCalls == old(gLlmCalls) + 1
      ensures slept <==> CooldownDue(gLlmCalls, maxQuota)
    {
      CooldownCountStep(gLlmCalls, maxQuota);
      gLlmCalls := gLlmCalls + 1;
      slept := gLlmCalls % maxQuota == 0;
      if slept {
        cooldowns := cooldowns + 1;
      }
    }

    /** One call of the model: the next pending reply, if any. */
    method Invoke() returns (r: Option<Reply>)
      modifies this`replies
      ensures old(replies) == [] ==> r.None? && replies == []
      ensures old(replies) != [] ==> r == Some(old(replies)[0]) && replies == old(replies)[1..]
    {
      if replies == [] {
        r := None;
      } else {
        r := Some(replies[0]);
        replies := replies[1..];
      }
    }

    /** Transcribe the current page image and append the text. Also returns the
        number the page's questions are expected to start at. */
    method ExtractPageTextStep(s: ExtractionState) returns (res: Outcome, startNumber: int)
      requires Valid()
      modifies this, s`pagesText
      ensures Valid()
      ensures startNumber == StartNumber(s.pagesQuestionsMap, s.currentPageIndex)
      ensures res == Fail(IndexError) <==> s.currentPageIndex >= |s.examImages|
      ensures res.Fail? ==> res.error == IndexError || res.error == ModelError
      ensures res.Pass? <==> s.currentPageIndex < |s.examImages| && old(replies) != [] && old(replies)[0].TextReply?
      ensures res.Pass? ==>
                && s.pagesText == old(s.pagesText) + [old(replies)[0].content]
                && replies == old(replies)[1..]
                && gLlmCalls == old(gLlmCalls) + 1
    {
      startNumber := StartNumber(s.pagesQuestionsMap, s.currentPageIndex);
      if s.currentPageIndex >= |s.examImages| {
        return Fail(IndexError), startNumber;
      }
      var r := Invoke();
      if r.None? || !r.value.TextReply? {
        return Fail(ModelError), startNumber;
      }
      var _ := HandleQuota();
      s.pagesText := s.pagesText + [r.value.content];
      res := Pass;
    }

    /** Ask for the current page's question numbers and store them, or an empty
        list when the model names more than eight. */
    method ExtractQuestionsNumbersStep(s: ExtractionState) returns (res: Outcome)
      modifies this`replies, s`pagesQuestionsMap
      ensures res == Fail(IndexError) <==> s.currentPageIndex >= |s.pagesText|
      ensures res.Fail? ==> res.error == IndexError || res.error == ModelError
      ensures res.Pass? <==> s.currentPageIndex < |s.pagesText| && old(replies) != [] && old(replies)[0].NumbersReply?
      ensures res.Pass? ==>
                && s.pagesQuestionsMap == old(s.pagesQuestionsMap)[s.currentPageIndex := GuardNumbers(old(replies)[0].questionNumbers)]
                && replies == old(replies)[1..]
    {
      if s.currentPageIndex >= |s.pagesText| {
        return Fail(IndexError);
      }
      var r := Invoke();
      if r.None? || !r.value.NumbersReply? {
        return Fail(ModelError);
      }
      s.pagesQuestionsMap := s.pagesQuestionsMap[s.currentPageIndex := GuardNumbers(r.value.questionNumbers)];
      res := Pass;
    }

    /** Have the model review the stored numbers and store its answer under the
        same guard. */
    method ReviewQuestionsNumbersStep(s: ExtractionState) returns (res: Outcome)
      modifies this`replies, s`pagesQuestionsMap
      ensures res == Fail(KeyError) <==> s.currentPageIndex !in old(s.pagesQuestionsMap)
      ensures res.Fail? ==> res.error == KeyError || res.error == ModelError
      ensures res.Pass? <==> s.currentPageIndex in old(s.pagesQuestionsMap) && old(replies) != [] && old(replies)[0].NumbersReply?
      ensures res.Pass? ==>
                && s.pagesQuestionsMap == old(s.pagesQuestionsMap)[s.currentPageIndex := GuardNumbers(old(replies)[0].questionNumbers)]
                && replies == old(replies)[1..]
    {
      if s.currentPageIndex !in s.pagesQuestionsMap {
        return Fail(KeyError);
      }
      var r := Invoke();
      if r.None? || !r.value.NumbersReply? {
        return Fail(ModelError);
      }
      s.pagesQuestionsMap := s.pagesQuestionsMap[s.currentPageIndex := GuardNumbers(r.value.questionNumbers)];
      res := Pass;
    }

    /** Ask for the clinical cases of the current page and record them. */
    method ExtractClinicalCasesStep(s: ExtractionState) returns (res: Outcome)
      requires Valid()
      modifies this, s`pagesClinicalCasesMap
      ensures Valid()
      ensures res == Fail(IndexError) <==> s.currentPageIndex >= |s.pagesText|
      ensures res.Fail? ==> res.error == IndexError || res.error == ModelError
      ensures res.Pass? <==> s.currentPageIndex < |s.pagesText| && old(replies) != [] && old(replies)[0].ClinicalCasesReply?
      ensures res.Pass? ==>
                && s.pagesClinicalCasesMap == old(s.pagesClinicalCasesMap)[s.currentPageIndex := old(replies)[0].clinicalCases]
                && replies == old(replies)[1..]
                && gLlmCalls == old(gLlmCalls) + 1
    {
      if s.currentPageIndex >= |s.pagesText| {
        return Fail(IndexError);
      }
      var r := Invoke();
      if r.None? || !r.value.ClinicalCasesReply? {
        return Fail(ModelError);
      }
      s.pagesClinicalCasesMap := s.pagesClinicalCasesMap[s.currentPageIndex := r.value.clinicalCases];
      var _ := HandleQuota();
      res := Pass;
    }

    /** Replace the current page's text by the model's version of it with the
        clinical cases taken out. */
    method RemoveClinicalCasesStep(s: ExtractionState) returns (res: Outcome)
      modifies this`replies, s`pagesText
      ensures res == Fail(IndexError) <==> s.currentPageIndex >= |old(s.pagesText)|
      ensures res == Fail(KeyError) <==> s.currentPageIndex < |old(s.pagesText)| && s.currentPageIndex !in s.pagesClinicalCasesMap
      ensures res.Fail? ==> res.error == IndexError || res.error == KeyError || res.error == ModelError
      ensures res.Pass? <==>
                && s.currentPageIndex < |old(s.pagesText)| && s.currentPageIndex in s.pagesClinicalCasesMap
                && old(replies) != [] && old(replies)[0].TextReply?
      ensures res.Pass? ==>
                && s.pagesText == old(s.pagesText)[s.currentPageIndex := old(replies)[0].content]
                && replies == old(replies)[1..]
    {
      if s.currentPageIndex >= |s.pagesText| {
        return Fail(IndexError);
      }
      if s.currentPageIndex !in s.pagesClinicalCasesMap {
        return Fail(KeyError);
      }
      var r := Invoke();
      if r.None? || !r.value.TextReply? {
        return Fail(ModelError);
      }
      s.pagesText := s.pagesText[s.currentPageIndex := r.value.content];
      res := Pass;
    }

    /** Move to the next page, or, on the last page, switch to the question
        phase without moving. */
    method AdvancePageStep(s: ExtractionState)
      modifies s`currentPageIndex, s`currentPhase
      ensures old(s.currentPageIndex) < |s.examImages| - 1 ==>
                s.currentPageIndex == old(s.currentPageIndex) + 1 && s.currentPhase == old(s.currentPhase)
      ensures old(s.currentPageIndex) >= |s.examImages| - 1 ==>
                s.currentPageIndex == old(s.currentPageIndex) && s.currentPhase == ExtractEachPageQuestionsPhase
    {
      if s.currentPageIndex < |s.examImages| - 1 {
        s.currentPageIndex := s.currentPageIndex + 1;
      } else {
        s.currentPhase := ExtractEachPageQuestionsPhase;
      }
    }

    /** Join the page texts with newlines, rewind to the first page and enter
        the question phase. */
    method ConcatenatePagesTextStep(s: ExtractionState)
      modifies s`currentPageIndex, s`pagesTextConcatenated, s`currentPhase
      ensures s.pagesText == old(s.pagesText)
      ensures s.currentPageIndex == 0
      ensures s.pagesTextConcatenated == Join(s.pagesText)
      ensures s.currentPhase == ExtractEachPageQuestionsPhase
    {
      s.currentPageIndex := 0;
      s.pagesTextConcatenated := Join(s.pagesText);
      s.currentPhase := ExtractEachPageQuestionsPhase;
    }

    /** Ask for the text of the current page's questions, reading the page
        together with a neighbour, and record it. */
    method ExtractQuestionsUsingNumbersStep(s: ExtractionState) returns (res: Outcome, window: string)
      modifies this`replies, s`pagesQuestionsTextMap
      ensures res == Fail(IndexError) <==> s.currentPageIndex >= |s.pagesText|
      ensures res == Fail(KeyError) <==> s.currentPageIndex < |s.pagesText| && s.currentPageIndex !in s.pagesQuestionsMap
      ensures res.Fail? ==> res.error == IndexError || res.error == KeyError || res.error == ModelError
      ensures s.currentPageIndex < |s.pagesText| ==> window == Window(s.pagesText, s.currentPageIndex)
      ensures res.Pass? <==>
                && s.currentPageIndex < |s.pagesText| && s.currentPageIndex in s.pagesQuestionsMap
                && old(replies) != [] && old(replies)[0].QuestionsTextReply?
      ensures res.Pass? ==>
                && s.pagesQuestionsTextMap == old(s.pagesQuestionsTextMap)[s.currentPageIndex := old(replies)[0].questionsText]
                && replies == old(replies)[1..]
    {
      if s.currentPageIndex >= |s.pagesText| {
        return Fail(IndexError), "";
      }
      window := Window(s.pagesText, s.currentPageIndex);
      if s.currentPageIndex !in s.pagesQuestionsMap {
        return Fail(KeyError), window;
      }
      var r := Invoke();
      if r.None? || !r.value.QuestionsTextReply? {
        return Fail(ModelError), window;
      }
      s.pagesQuestionsTextMap := s.pagesQuestionsTextMap[s.currentPageIndex := r.value.questionsText];
      res := Pass;
    }

    /** The retry loop: up to three attempts to get exactly as many questions
        as numbers expected. Each attempt after a failed one carries the
        numbers the previous attempt missed (`feedback[k]`). When the attempts
        run out, the last answer is kept whatever its count. */
    method ParsePageQuestions(expected: seq<int>) returns (res: Result<seq<Question>, Error>, attempts: nat, feedback: seq<Option<seq<int>>>)
      requires Valid()
      modifies this`replies, this`gLlmCalls, this`cooldowns
      ensures Valid()
      ensures res.Failure? ==> res.error == ModelError && ParseBreaksDown(old(replies), expected)
      ensures res.Success? ==>
                && ParsedBy(old(replies), expected, attempts, res.value)
                && replies == old(replies)[attempts..]
                && gLlmCalls == old(gLlmCalls) + attempts
      ensures res.Success? ==>
                && |feedback| == attempts
                && feedback[0] == None
                && forall k :: 1 <= k < attempts ==>
                     feedback[k] == Some(MissingNumbers(expected, NumbersOf(old(replies)[k - 1].questions)))
    {
      ghost var rs := replies;
      var hasFailed := false;
      var missing: seq<int> := [];
      var retryCount := ParseAttempts;
      var last: seq<Question> := [];
      attempts := 0;
      feedback := [];
      while retryCount > 0
        invariant Valid()
        invariant attempts + retryCount == ParseAttempts
        invariant attempts <= |rs| && replies == rs[attempts..]
        invariant gLlmCalls == old(gLlmCalls) + attempts
        invariant forall k :: 0 <= k < attempts ==> FailedAttempt(rs[k], expected)
        invariant |feedback| == attempts
        invariant attempts > 0 ==> feedback[0] == None
        invariant forall k :: 1 <= k < attempts ==>
                    feedback[k] == Some(MissingNumbers(expected, NumbersOf(rs[k - 1].questions)))
        invariant attempts == 0 ==> !hasFailed
        invariant attempts > 0 ==> last == rs[attempts - 1].questions
        invariant attempts > 0 ==> hasFailed && missing == MissingNumbers(expected, NumbersOf(rs[attempts - 1].questions))
        decreases retryCount
      {
        feedback := feedback + [if hasFailed then Some(missing) else None];
        var r := Invoke();
        if r.None? || !r.value.QuestionsReply? {
          assert BreaksAt(rs, expected, attempts);
          return Failure(ModelError), attempts, feedback;
        }
        last := r.value.questions;
        attempts := attempts + 1;
        var _ := HandleQuota();
        if |last| == |expected| {
          hasFailed := false;
          missing := [];
          break;
        }
        missing := MissingNumbers(expected, NumbersOf(last));
        hasFailed := true;
        retryCount := retryCount - 1;
      }
      res := Success(last);
    }

    /** Parse the current page's questions and append them, followed by
        placeholder questions when the count is off or numbers are skipped
        before the next page. */
    method ExtractEachPageQuestionsStep(s: ExtractionState) returns (res: Outcome, attempts: nat, parsed: seq<Question>)
      requires Valid()
      modifies this, s`examQuestions
      ensures Valid()
      ensures res == Fail(KeyError) <==>
                s.currentPageIndex !in s.pagesQuestionsTextMap || s.currentPageIndex !in s.pagesQuestionsMap
      ensures res.Fail? ==> res.error == KeyError || res.error == ModelError
      ensures res == Fail(ModelError) ==> ParseBreaksDown(old(replies), s.pagesQuestionsMap[s.currentPageIndex])
      ensures res.Pass? ==>
                var i := s.currentPageIndex;
                var expected := s.pagesQuestionsMap[i];
                && ParsedBy(old(replies), expected, attempts, parsed)
                && replies == old(replies)[attempts..]
                && gLlmCalls == old(gLlmCalls) + attempts
                && s.examQuestions
                   == MergePageQuestions(old(s.examQuestions), parsed, expected,
                                         NextPageFirstNumber(s.pagesQuestionsMap, i, |s.examImages|))
    {
      var i := s.currentPageIndex;
      if i !in s.pagesQuestionsTextMap || i !in s.pagesQuestionsMap {
        return Fail(KeyError), 0, [];
      }
      var expected := s.pagesQuestionsMap[i];
      var r, n, _ := ParsePageQuestions(expected);
      if r.Failure? {
        return Fail(ModelError), 0, [];
      }
      attempts, parsed := n, r.value;
      s.examQuestions := MergePageQuestions(s.examQuestions, parsed, expected,
                                            NextPageFirstNumber(s.pagesQuestionsMap, i, |s.examImages|));
      res := Pass;
    }
    /** Run one node and report whether it failed. From a state where the
        invariant holds, a node either fails with a model error (or, with no
        page images at all, an index error) or leaves the invariant holding
        for the node the graph routes to next. Only the parsing node touches
        the question list: it appends the current page's merge, made from a
        parse the model's replies produce. */
    method Step(s: ExtractionState, node: Node, ghost steps: nat, ghost parses: seq<seq<Question>>)
      returns (res: Outcome, ghost parses': seq<seq<Question>>)
      requires Valid() && Inv(s, node, steps, parses) && node != End
      modifies this, s
      ensures Valid()
      ensures res.Pass? ==> Inv(s, Next(node, s.EdgeView()), steps + 1, parses')
      ensures res.Fail? ==> res.error == ModelError || (res.error == IndexError && |s.examImages| == 0)
      ensures !node.ExtractEachPageQuestions? ==> s.examQuestions == old(s.examQuestions) && parses' == parses
      ensures node.ExtractEachPageQuestions? && res.Pass? ==> PageMerged(s, old(s.examQuestions), old(replies), parses, parses')
    {
      if IsReadingNode(node) {
        res := ReadingStep(s, node, steps, parses);
        parses' := parses;
      } else {
        res, parses' := ParsingStep(s, node, steps, parses);
      }
    }

    /** The nodes of the page-reading pass, with the same promise as `Step`. */
    method ReadingStep(s: ExtractionState, node: Node, ghost steps: nat, ghost parses: seq<seq<Question>>) returns (res: Outcome)
      requires Valid() && Inv(s, node, steps, parses) && IsReadingNode(node)
      modifies this, s
      ensures Valid()
      ensures res.Pass? ==> Inv(s, Next(node, s.EdgeView()), steps + 1, parses)
      ensures res.Fail? ==> res.error == ModelError || (res.error == IndexError && |s.examImages| == 0)
      ensures s.examQuestions == old(s.examQuestions)
    {
      match node
      case Start =>
        res := Pass;
      case ExtractPageText =>
        res := RunExtractPageText(s, steps, parses);
      case ExtractQuestionsNumbers =>
        res := RunExtractQuestionsNumbers(s, steps, parses);
      case ReviewQuestionsNumbers =>
        res := RunReviewQuestionsNumbers(s, steps, parses);
      case ExtractClinicalCases =>
        res := RunExtractClinicalCases(s, steps, parses);
      case RemoveClinicalCasesFromPageText =>
        res := RunRemoveClinicalCases(s, steps, parses);
    }

    /** Advancing, joining the pages and the content pass, with the same
        promise as `Step`. */
    method ParsingStep(s: ExtractionState, node: Node, ghost steps: nat, ghost parses: seq<seq<Question>>)
      returns (res: Outcome, ghost parses': seq<seq<Question>>)
      requires Valid() && Inv(s, node, steps, parses) && !IsReadingNode(node) && node != End
      modifies this, s
      ensures Valid()
      ensures res.Pass? ==> Inv(s, Next(node, s.EdgeView()), steps + 1, parses')
      ensures res.Fail? ==> res.error == ModelError
      ensures !node.ExtractEachPageQuestions? ==> s.examQuestions == old(s.examQuestions) && parses' == parses
      ensures node.ExtractEachPageQuestions? && res.Pass? ==> PageMerged(s, old(s.examQuestions), old(replies), parses, parses')
    {
      parses' := parses;
      match node
      case AdvancePage =>
        RunAdvancePage(s, steps, parses);
        res := Pass;
      case ConcatenatePagesText =>
        RunConcatenatePagesText(s, steps, parses);
        res := Pass;
      case ExtractQuestionsUsingNumbers =>
        res := RunExtractQuestionsUsingNumbers(s, steps, parses);
      case ExtractEachPageQuestions =>
        res, parses' := RunExtractEachPageQuestions(s, steps, parses);
    }

    /** Transcribing a page under the driver invariant fails only when the
        model does, or with an index error when there is no page at all. */
    method RunExtractPageText(s: ExtractionState, ghost steps: nat, ghost parses: seq<seq<Question>>) returns (res: Outcome)
      requires Valid() && Inv(s, ExtractPageText, steps, parses)
      modifies this, s`pagesText
      ensures Valid()
      ensures res.Fail? ==> res.error == ModelError || (res.error == IndexError && |s.examImages| == 0)
      ensures res.Pass? ==> Inv(s, Next(ExtractPageText, s.EdgeView()), steps + 1, parses)
      ensures res.Pass? ==>
                && old(replies) != [] && old(replies)[0].TextReply?
                && s.pagesText == old(s.pagesText) + [old(replies)[0].content]
                && replies == old(replies)[1..]
                && gLlmCalls == old(gLlmCalls) + 1
    {
      var r, _ := ExtractPageTextStep(s);
      res := r;
    }

    /** Detecting a page's numbers under the driver invariant fails only when
        the model does. */
    method RunExtractQuestionsNumbers(s: ExtractionState, ghost steps: nat, ghost parses: seq<seq<Question>>) returns (res: Outcome)
      requires Inv(s, ExtractQuestionsNumbers, steps, parses)
      modifies this`replies, s`pagesQuestionsMap
      ensures res.Fail? ==> res.error == ModelError
      ensures res.Pass? ==> Inv(s, Next(ExtractQuestionsNumbers, s.EdgeView()), steps + 1, parses)
      ensures res.Pass? ==>
                && old(replies) != [] && old(replies)[0].NumbersReply?
                && s.pagesQuestionsMap == old(s.pagesQuestionsMap)[s.currentPageIndex := GuardNumbers(old(replies)[0].questionNumbers)]
                && replies == old(replies)[1..]
    {
      res := ExtractQuestionsNumbersStep(s);
    }

    /** Reviewing a page's numbers under the driver invariant fails only when
        the model does. */
    method RunReviewQuestionsNumbers(s: ExtractionState, ghost steps: nat, ghost parses: seq<seq<Question>>) returns (res: Outcome)
      requires Inv(s, ReviewQuestionsNumbers, steps, parses)
      modifies this`replies, s`pagesQuestionsMap
      ensures res.Fail? ==> res.error == ModelError
      ensures res.Pass? ==> Inv(s, Next(ReviewQuestionsNumbers, s.EdgeView()), steps + 1, parses)
      ensures res.Pass? ==>
                && old(replies) != [] && old(replies)[0].NumbersReply?
                && s.pagesQuestionsMap == old(s.pagesQuestionsMap)[s.currentPageIndex := GuardNumbers(old(replies)[0].questionNumbers)]
                && replies == old(replies)[1..]
    {
      res := ReviewQuestionsNumbersStep(s);
    }

    /** Detecting a page's clinical cases under the driver invariant fails
        only when the model does. */
    method RunExtractClinicalCases(s: ExtractionState, ghost steps: nat, ghost parses: seq<seq<Question>>) returns (res: Outcome)
      requires Valid() && Inv(s, ExtractClinicalCases, steps, parses)
      modifies this, s`pagesClinicalCasesMap
      ensures Valid()
      ensures res.Fail? ==> res.error == ModelError
      ensures res.Pass? ==> Inv(s, Next(ExtractClinicalCases, s.EdgeView()), steps + 1, parses)
      ensures res.Pass? ==>
                && old(replies) != [] && old(replies)[0].ClinicalCasesReply?
                && s.pagesClinicalCasesMap == old(s.pagesClinicalCasesMap)[s.currentPageIndex := old(replies)[0].clinicalCases]
                && replies == old(replies)[1..]
                && gLlmCalls == old(gLlmCalls) + 1
    {
      res := ExtractClinicalCasesStep(s);
    }

    /** Removing a page's clinical cases under the driver invariant fails only
        when the model does. */
    method RunRemoveClinicalCases(s: ExtractionState, ghost steps: nat, ghost parses: seq<seq<Question>>) returns (res: Outcome)
      requires Inv(s, RemoveClinicalCasesFromPageText, steps, parses)
      modifies this`replies, s`pagesText
      ensures res.Fail? ==> res.error == ModelError
      ensures res.Pass? ==> Inv(s, Next(RemoveClinicalCasesFromPageText, s.EdgeView()), steps + 1, parses)
      ensures res.Pass? ==>
                && old(replies) != [] && old(replies)[0].TextReply?
                && s.pagesText == old(s.pagesText)[s.currentPageIndex := old(replies)[0].content]
                && replies == old(replies)[1..]
    {
      res := RemoveClinicalCasesStep(s);
    }

    /** Advancing under the driver invariant, in either pass. */
    method RunAdvancePage(s: ExtractionState, ghost steps: nat, ghost parses: seq<seq<Question>>)
      requires Inv(s, AdvancePage, steps, parses)
      modifies s`currentPageIndex, s`currentPhase
      ensures Inv(s, Next(AdvancePage, s.EdgeView()), steps + 1, parses)
    {
      AdvancePageStep(s);
    }

    /** Joining the pages under the driver invariant starts the content pass
        on the first page. */
    method RunConcatenatePagesText(s: ExtractionState, ghost steps: nat, ghost parses: seq<seq<Question>>)
      requires Inv(s, ConcatenatePagesText, steps, parses)
      modifies s`currentPageIndex, s`pagesTextConcatenated, s`currentPhase
      ensures Inv(s, Next(ConcatenatePagesText, s.EdgeView()), steps + 1, parses)
    {
      ConcatenatePagesTextStep(s);
    }

    /** Recovering a page's question text under the driver invariant fails
        only when the model does. */
    method RunExtractQuestionsUsingNumbers(s: ExtractionState, ghost steps: nat, ghost parses: seq<seq<Question>>) returns (res: Outcome)
      requires Inv(s, ExtractQuestionsUsingNumbers, steps, parses)
      modifies this`replies, s`pagesQuestionsTextMap
      ensures res.Fail? ==> res.error == ModelError
      ensures res.Pass? ==> Inv(s, Next(ExtractQuestionsUsingNumbers, s.EdgeView()), steps + 1, parses)
      ensures res.Pass? ==>
                && old(replies) != [] && old(replies)[0].QuestionsTextReply?
                && s.pagesQuestionsTextMap == old(s.pagesQuestionsTextMap)[s.currentPageIndex := old(replies)[0].questionsText]
                && replies == old(replies)[1..]
    {
      var r, _ := ExtractQuestionsUsingNumbersStep(s);
      res := r;
    }

    /** Parsing a page under the driver invariant fails only when the model
        breaks down; otherwise the page's merge is appended and the pages
        parsed so far grow by this one. */
    method RunExtractEachPageQuestions(s: ExtractionState, ghost steps: nat, ghost parses: seq<seq<Question>>)
      returns (res: Outcome, ghost parses': seq<seq<Question>>)
      requires Valid() && Inv(s, ExtractEachPageQuestions, steps, parses)
      modifies this, s`examQuestions
      ensures Valid()
      ensures res.Fail? ==> res.error == ModelError
      ensures res.Pass? ==> Inv(s, Next(ExtractEachPageQuestions, s.EdgeView()), steps + 1, parses')
      ensures res.Pass? ==> PageMerged(s, old(s.examQuestions), old(replies), parses, parses')
    {
      ghost var rs := replies;
      ghost var done := MergedPages(s.pagesQuestionsMap, |s.examImages|, parses);
      assert Parsing(s) && |parses| == s.currentPageIndex;
      var r, attempts, parsed := ExtractEachPageQuestionsStep(s);
      res := r;
      parses' := parses + [parsed];
      if r.Pass? {
        assert ParsedBy(rs, s.pagesQuestionsMap[s.currentPageIndex], attempts, parsed);
        assert parses'[..|parses|] == parses && parses'[|parses|] == parsed;
        MergedNodeKeepsInv(s, steps, parses, parsed);
      }
    }

    /** Follow the graph from its start over the given page images, for at
        most `RecursionLimit` node executions. A run that reaches the end read
        every page (so it had at least one), stored at most eight numbers per
        page and had at most fifteen pages, since each page costs eight steps;
        a run that fails did so because the model broke down, the step limit
        was reached, or there was no page at all. */
    method Run(examImages: seq<string>) returns (r: Result<ExtractionState, Error>, ghost parses: seq<seq<Question>>)
      requires Valid()
      modifies this
      ensures Valid()
      ensures r.Success? ==>
                && fresh(r.value)
                && r.value.examImages == examImages
                && 1 <= |examImages| && 8 * |examImages| <= RecursionLimit
                && r.value.currentPhase == ExtractEachPageQuestionsPhase
                && r.value.currentPageIndex == |examImages| - 1
                && |r.value.pagesText| == |examImages|
                && KeysBelow(r.value.pagesQuestionsMap, |examImages|)
                && ListsBounded(r.value.pagesQuestionsMap)
                && r.value.pagesTextConcatenated == Join(r.value.pagesText)
                && |parses| == |examImages|
                && r.value.examQuestions == MergedPages(r.value.pagesQuestionsMap, |examImages|, parses)
      ensures r.Failure? ==>
                || r.error == ModelError || r.error == RecursionLimitError
                || (r.error == IndexError && examImages == [])
    {
      var s := new ExtractionState(examImages);
      var node := Start;
      var count: nat := 0;
      parses := [];
      while node != End && count < RecursionLimit
        invariant Valid()
        invariant fresh(s) && s.examImages == examImages
        invariant Inv(s, node, count, parses) && count <= RecursionLimit
        decreases RecursionLimit - count
      {
        var res;
        res, parses := Step(s, node, count, parses);
        if res.Fail? {
          return Failure(res.error), parses;
        }
        node := Next(node, s.EdgeView());
        count := count + 1;
      }
      if node != End {
        return Failure(RecursionLimitError), parses;
      }
      r := Success(s);
    }
  }
}
