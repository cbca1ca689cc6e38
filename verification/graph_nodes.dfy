/**
 * State types of the deep-RAG graph and the two serialisers that turn them
 * into prompt text: the research history (`get_past_context_str`) and the
 * document context (`format_docs`).
 */
module GraphNodes {
  import opened Wrappers
  import opened Text

  /** A passage with its metadata. Only string-valued metadata entries are kept (the web `score` is dropped). */
  datatype Document = Document(content: string, metadata: map<string, string>)

  /** `doc.metadata.get(key, default)` */
  function MetaGet(d: Document, key: string, default: string): string {
    if key in d.metadata then d.metadata[key] else default
  }

  /**
   * One planned research step. `tool` stays a string because the router compares it
   * with string literals, among them the legacy `"search_10k"`.
   */
  datatype Step = Step(
    subQuestion: string,
    justification: string,
    tool: string,
    keywords: seq<string>,
    documentSection: Option<string>)

  /** The tools the planner's structured output may name. */
  predicate IsDeclaredTool(tool: string) {
    tool == "search_documents" || tool == "search_web"
  }

  datatype Plan = Plan(steps: seq<Step>)

  /** A plan the structured-output parser accepts: every step names a declared tool. */
  predicate WellTypedPlan(p: Plan) {
    forall i :: 0 <= i < |p.steps| ==> IsDeclaredTool(p.steps[i].tool)
  }

  /** Record of one completed research step. */
  datatype PastStep = PastStep(stepIndex: int, subQuestion: string, retrievedDocs: seq<Document>, summary: string)

  datatype Strategy = VectorSearch | KeywordSearch | HybridSearch

  datatype RetrievalDecision = RetrievalDecision(strategy: Strategy, justification: string)

  datatype Decision = Continue | Stop

  datatype PolicyDecision = PolicyDecision(decision: Decision, reasoning: string)

  /** What an agent call produced: its answer, or an exception. */
  datatype Reply<+T> = Answered(value: T) | Raised

  /** `f"Step {step_index}: {sub_question}\nSummary: {summary}"` */
  function PastStepEntry(s: PastStep): string {
    "Step " + IntToString(s.stepIndex) + ": " + s.subQuestion + "\nSummary: " + s.summary
  }

  function PastStepEntries(steps: seq<PastStep>): (r: seq<string>)
    ensures |r| == |steps|
    ensures forall i :: 0 <= i < |steps| ==> r[i] == PastStepEntry(steps[i])
  {
    seq(|steps|, i requires 0 <= i < |steps| => PastStepEntry(steps[i]))
  }

  /** `get_past_context_str`: the entries of the past steps, in order, separated by a blank line. */
  function PastContextStr(steps: seq<PastStep>): string {
    Join(PastStepEntries(steps), "\n\n")
  }

  /** The empty history renders as the empty string and a single step as its entry alone. */
  lemma PastContextStrSmall(steps: seq<PastStep>)
    requires |steps| <= 1
    ensures steps == [] ==> PastContextStr(steps) == ""
    ensures |steps| == 1 ==> PastContextStr(steps) == PastStepEntry(steps[0])
  {
  }

  /**
   * Appending one step to a non-empty history extends the rendered history by a
   * blank line and the new entry; the earlier text is kept as it was.
   */
  lemma PastContextStrAppend(steps: seq<PastStep>, s: PastStep)
    requires steps != []
    ensures PastContextStr(steps + [s]) == PastContextStr(steps) + "\n\n" + PastStepEntry(s)
  {
    assert PastStepEntries(steps + [s]) == PastStepEntries(steps) + [PastStepEntry(s)];
    JoinAppend(PastStepEntries(steps), PastStepEntry(s), "\n\n");
  }

  function DocContents(docs: seq<Document>): (r: seq<string>)
    ensures |r| == |docs|
    ensures forall i :: 0 <= i < |docs| ==> r[i] == docs[i].content
  {
    seq(|docs|, i requires 0 <= i < |docs| => docs[i].content)
  }

  /** `format_docs`: the page contents in order, separated by a horizontal rule. */
  function FormatDocs(docs: seq<Document>): string {
    Join(DocContents(docs), "\n\n---\n\n")
  }

  /** No documents give the empty string; one document gives exactly its content. */
  lemma FormatDocsSmall(docs: seq<Document>)
    requires |docs| <= 1
    ensures docs == [] ==> FormatDocs(docs) == ""
    ensures |docs| == 1 ==> FormatDocs(docs) == docs[0].content
  {
  }

  /** One more document adds one rule and its content at the end. */
  lemma FormatDocsAppend(docs: seq<Document>, d: Document)
    requires docs != []
    ensures FormatDocs(docs + [d]) == FormatDocs(docs) + "\n\n---\n\n" + d.content
  {
    assert DocContents(docs + [d]) == DocContents(docs) + [d.content];
    JoinAppend(DocContents(docs), d.content, "\n\n---\n\n");
  }
}
