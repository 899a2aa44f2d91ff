/** The page-by-page extraction graph: its nodes, its conditional edges and the
    successor function the workflow driver follows. */
module Graph {
  import opened Models

  datatype Node =
    | Start
    | ExtractPageText
    | ReviewPageText          // named by an edge, never registered as a node
    | ExtractQuestionsNumbers
    | ReviewQuestionsNumbers
    | ExtractClinicalCases
    | RemoveClinicalCasesFromPageText
    | AdvancePage
    | ConcatenatePagesText
    | ExtractQuestionsUsingNumbers
    | ExtractEachPageQuestions
    | End

  /** What the conditional edges look at: the page cursor, the number of page
      images, how many clinical cases the map holds for the current page (0 when
      it holds no entry) and the phase. */
  datatype EdgeInputs = EdgeInputs(currentPageIndex: nat, pageCount: nat, caseCount: nat, phase: Phase)

  predicate NotLastPage(e: EdgeInputs)
  {
    e.currentPageIndex < e.pageCount - 1
  }

  /** The conditional edge leaving clinical-case detection. */
  function AfterClinicalCases(e: EdgeInputs): (r: Node)
    ensures r == RemoveClinicalCasesFromPageText || r == AdvancePage || r == ConcatenatePagesText
  {
    if e.caseCount > 0 && NotLastPage(e) then RemoveClinicalCasesFromPageText
    else if NotLastPage(e) && e.caseCount <= 0 then AdvancePage
    else ConcatenatePagesText
  }

  /** Stripping runs exactly for a page with cases that is not the last; a page
      without cases that is not the last advances; the last page concatenates. */
  lemma AfterClinicalCasesRoutes(e: EdgeInputs)
    ensures AfterClinicalCases(e) == RemoveClinicalCasesFromPageText <==> e.caseCount >= 1 && NotLastPage(e)
    ensures AfterClinicalCases(e) == AdvancePage <==> e.caseCount == 0 && NotLastPage(e)
    ensures AfterClinicalCases(e) == ConcatenatePagesText <==> !NotLastPage(e)
  {
  }

  /** The successor of each node. The edge leaving text extraction goes straight
      to number detection: the node src/workflow.py routes it to is not registered. */
  function Next(n: Node, e: EdgeInputs): (m: Node)
    ensures m == End <==> n == End || (n == ExtractEachPageQuestions && !NotLastPage(e))
    ensures m != Start && m != ReviewPageText
  {
    match n
    case Start => ExtractPageText
    case ExtractPageText => ExtractQuestionsNumbers
    case ReviewPageText => ExtractQuestionsNumbers
    case ExtractQuestionsNumbers => ReviewQuestionsNumbers
    case ReviewQuestionsNumbers => ExtractClinicalCases
    case ExtractClinicalCases => AfterClinicalCases(e)
    case RemoveClinicalCasesFromPageText => if NotLastPage(e) then AdvancePage else ConcatenatePagesText
    case ConcatenatePagesText => ExtractQuestionsUsingNumbers
    case ExtractQuestionsUsingNumbers => ExtractEachPageQuestions
    case ExtractEachPageQuestions => if NotLastPage(e) then AdvancePage else End
    case AdvancePage =>
      if e.phase == ExtractPageTextPhase then ExtractPageText else ExtractQuestionsUsingNumbers
    case End => End
  }

  /** The nodes the graph registers. */
  function RegisteredNodes(): set<Node>
  {
    {Start, ExtractPageText, ExtractQuestionsNumbers, ReviewQuestionsNumbers, AdvancePage,
     ExtractClinicalCases, RemoveClinicalCasesFromPageText, ConcatenatePagesText,
     ExtractQuestionsUsingNumbers, ExtractEachPageQuestions}
  }

  /** Every successor of a registered node is registered or the end. */
  lemma NextIsRegistered(n: Node, e: EdgeInputs)
    requires n in RegisteredNodes()
    ensures Next(n, e) in RegisteredNodes() || Next(n, e) == End
  {
  }

  /** The metadata loop and the content loop: advancing routes on the phase. */
  lemma AdvanceRoutesOnPhase(e: EdgeInputs)
    ensures Next(AdvancePage, e) == ExtractPageText <==> e.phase == ExtractPageTextPhase
    ensures Next(AdvancePage, e) == ExtractQuestionsUsingNumbers <==> e.phase == ExtractEachPageQuestionsPhase
  {
  }

  /** The unconditional edges as src/workflow.py adds them. */
  function StaticEdgesAsWritten(): (edges: seq<(Node, Node)>)
    ensures |edges| == 7
  {
    [(Start, ExtractPageText),
     (ExtractPageText, ReviewPageText),
     (ReviewPageText, ExtractQuestionsNumbers),
     (ExtractQuestionsNumbers, ReviewQuestionsNumbers),
     (ReviewQuestionsNumbers, ExtractClinicalCases),
     (ConcatenatePagesText, ExtractQuestionsUsingNumbers),
     (ExtractQuestionsUsingNumbers, ExtractEachPageQuestions)]
  }

  /** As written, text extraction has a single edge and it ends at a node that
      is not registered, so no registered node follows text extraction. */
  lemma TextExtractionEdgeDangles()
    ensures exists k ::
              && 0 <= k < |StaticEdgesAsWritten()|
              && StaticEdgesAsWritten()[k].0 == ExtractPageText
              && StaticEdgesAsWritten()[k].1 !in RegisteredNodes()
    ensures forall k ::
              0 <= k < |StaticEdgesAsWritten()| && StaticEdgesAsWritten()[k].0 == ExtractPageText
              ==> StaticEdgesAsWritten()[k].1 !in RegisteredNodes()
  {
    assert StaticEdgesAsWritten()[1] == (ExtractPageText, ReviewPageText);
  }

  /** Every static edge that starts at a registered node agrees with `Next`,
      except the dangling one, which `Next` replaces by the edge to number
      detection. */
  lemma StaticEdgesAgreeWithNext(k: nat, e: EdgeInputs)
    requires k < |StaticEdgesAsWritten()|
    requires StaticEdgesAsWritten()[k].0 in RegisteredNodes()
    ensures StaticEdgesAsWritten()[k].1 in RegisteredNodes()
      ==> Next(StaticEdgesAsWritten()[k].0, e) == StaticEdgesAsWritten()[k].1
    ensures StaticEdgesAsWritten()[k].1 !in RegisteredNodes()
      ==> (StaticEdgesAsWritten()[k] == (ExtractPageText, ReviewPageText)
           && Next(ExtractPageText, e) == ExtractQuestionsNumbers)
  {
  }
}
