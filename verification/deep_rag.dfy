/**
 * The deep-RAG orchestrator: a graph of nodes over one state record,
 *
 *   plan -> choose_next_tool -> {retrieve_documents | retrieve_web | generate_final_answer}
 *   retrieve_* -> rerank -> compress -> reflect -> {choose_next_tool | generate_final_answer}
 *   generate_final_answer -> END
 *
 * Every language-model agent, the web search client and the retrieval backends
 * are oracles held in an `Env`. An agent either answers or raises. The per-step
 * agents also receive the step index, so a run may see different answers at
 * different steps. The graph engine runs one node per step under a step budget
 * (its recursion limit) and streams the full state after every step.
 */
module DeepRag {
  import opened Wrappers
  import opened Text
  import opened GraphNodes
  import Retrieval
  import Findings

  // ---------------------------------------------------------------------
  // Configuration, oracles and state
  // ---------------------------------------------------------------------

  /** The configuration values the nodes read. */
  datatype Config = Config(topKRetrieval: nat, topNRerank: nat, webSearchResults: nat)

  /** The defaults the nodes fall back to: 10 retrieved, 3 kept after reranking, 5 web results. */
  const DefaultConfig := Config(10, 3, 5)

  /** The web search set-up: disabled, the direct Tavily client, or the LangChain Tavily tool. */
  datatype WebTool = NoWebTool | DirectClient | LangchainTool

  /** One web search hit; each field may be missing. */
  datatype WebResult = WebResult(content: Option<string>, snippet: Option<string>, url: Option<string>, title: Option<string>)

  /** What the policy agent is shown. */
  datatype PolicyInput = PolicyInput(originalQuestion: string, researchHistory: string, currentStep: int, maxSteps: int, totalSteps: int)

  /** The two prompts the final synthesiser is used with: the final-answer node's and the recovery path's. */
  datatype SynthesisPrompt = FinalAnswerPrompt | RecoveryPrompt

  datatype Env = Env(
    config: Config,
    documents: seq<Document>,  // the corpus handed to the system (empty when none)
    hasVectorStore: bool,
    hasEmbeddings: bool,
    webTool: WebTool,
    planner: string -> Reply<Plan>,
    rewriter: (nat, string, string, string) -> Reply<string>,  // step, sub-question, keywords, past context
    supervisor: (nat, string) -> Reply<RetrievalDecision>,
    bm25: Retrieval.Bm25Scorer,
    similar: Retrieval.Similarity,
    webSearch: (nat, WebTool, string, nat) -> Reply<seq<WebResult>>,
    distiller: (nat, string, string) -> Reply<string>,
    reflector: (nat, string, string) -> Reply<string>,
    policy: PolicyInput -> Reply<PolicyDecision>,
    synthesizer: (SynthesisPrompt, string, string) -> Reply<string>)

  /** The fields of the graph state the nodes read or write. */
  datatype RagState = RagState(
    originalQuestion: string,
    plan: Option<Plan>,
    pastSteps: seq<PastStep>,
    index: nat,  // current_step_index
    retrievedDocs: seq<Document>,
    rerankedDocs: seq<Document>,
    synthesizedContext: string,
    researchHistory: string,
    finalAnswer: string,
    maxSteps: int)

  /** The state `answer` starts the graph from. */
  function InitialState(question: string, maxSteps: int): RagState {
    RagState(question, None, [], 0, [], [], "", "", "", maxSteps)
  }

  /** The planned steps; none without a plan. */
  function Steps(s: RagState): seq<Step> {
    if s.plan.Some? then s.plan.value.steps else []
  }

  /** The guard of the step nodes: a plan exists and the index is one of its steps. */
  predicate InRange(s: RagState) {
    s.plan.Some? && s.index < |s.plan.value.steps|
  }

  function CurrentStep(s: RagState): Step
    requires InRange(s)
  {
    s.plan.value.steps[s.index]
  }

  function Min(a: int, b: int): int {
    if a <= b then a else b
  }

  // ---------------------------------------------------------------------
  // Nodes
  // ---------------------------------------------------------------------

  /** `plan_node`: ask the planner, then start over at step 0 with no past steps. */
  function PlanNodeStep(env: Env, s: RagState): (r: Reply<RagState>)
    ensures r.Answered? <==> env.planner(s.originalQuestion).Answered?
    ensures r.Answered? ==> r.value == s.(plan := Some(env.planner(s.originalQuestion).value), index := 0, pastSteps := [])
  {
    match env.planner(s.originalQuestion)
    case Raised => Raised
    case Answered(p) => Answered(s.(plan := Some(p), index := 0, pastSteps := []))
  }

  /** The retriever exists only with a vector store, a non-empty corpus and an embedding function. */
  predicate HasRetriever(env: Env) {
    env.hasVectorStore && env.documents != [] && env.hasEmbeddings
  }

  /**
   * The documents the chosen strategy retrieves. Without a retriever, the vector
   * store is searched directly, which raises when there is no store. A fusion
   * `KeyError` raises too.
   */
  function Fetch(env: Env, decision: RetrievalDecision, query: string, section: Option<string>): (r: Reply<seq<Document>>)
    ensures !HasRetriever(env) ==> (r.Raised? <==> !env.hasVectorStore)
    ensures !HasRetriever(env) && env.hasVectorStore ==>
      r == Answered(env.similar(Retrieval.WholeIndex, query, env.config.topKRetrieval))
    ensures HasRetriever(env) && !decision.strategy.HybridSearch? ==> r.Answered?
    ensures HasRetriever(env) && decision.strategy.KeywordSearch? ==>
      && |r.value| == (if env.config.topKRetrieval <= |env.documents| then env.config.topKRetrieval else |env.documents|)
      && forall d :: d in r.value ==> d in env.documents
    ensures HasRetriever(env) && decision.strategy.HybridSearch? && r.Answered? ==>
      |r.value| <= env.config.topKRetrieval
  {
    var k := env.config.topKRetrieval;
    if HasRetriever(env) then
      var r := Retrieval.Build(env.documents);
      match decision.strategy
      case VectorSearch => Answered(Retrieval.VectorSearch(r, query, section, k, env.similar))
      case KeywordSearch => Answered(Retrieval.Bm25Search(r, query, k, env.bm25))
      case HybridSearch =>
        match Retrieval.Fuse(Retrieval.Bm25Search(r, query, k, env.bm25), Retrieval.VectorSearch(r, query, section, k, env.similar), k)
        case Some(docs) => Answered(docs)
        case None => Raised
    else if env.hasVectorStore then Answered(env.similar(Retrieval.WholeIndex, query, k))
    else Raised
  }

  /** The rewritten query for the current step: from its sub-question, its keywords joined by ", ", and the research history. */
  function RewriteQuery(env: Env, s: RagState): Reply<string>
    requires InRange(s)
  {
    var step := CurrentStep(s);
    env.rewriter(s.index, step.subQuestion, Join(step.keywords, ", "), PastContextStr(s.pastSteps))
  }

  /** `retrieval_node`: out of range, no documents; otherwise rewrite, pick a strategy, fetch. */
  function RetrieveDocumentsStep(env: Env, s: RagState): (r: Reply<RagState>)
    ensures !InRange(s) ==> r == Answered(s.(retrievedDocs := []))
    ensures r.Answered? ==> r.value == s.(retrievedDocs := r.value.retrievedDocs)
  {
    if !InRange(s) then Answered(s.(retrievedDocs := []))
    else
      match RewriteQuery(env, s)
      case Raised => Raised
      case Answered(query) =>
        match env.supervisor(s.index, query)
        case Raised => Raised
        case Answered(decision) =>
          match Fetch(env, decision, query, CurrentStep(s).documentSection)
          case Raised => Raised
          case Answered(docs) => Answered(s.(retrievedDocs := docs))
  }

  /** A web hit as a document: the direct client reads `content`, the LangChain tool falls back to `snippet`. */
  function WebDocument(tool: WebTool, res: WebResult): Document {
    var content := if tool == DirectClient then res.content.GetOr("") else res.content.GetOr(res.snippet.GetOr(""));
    Document(content, map["source" := res.url.GetOr("unknown"), "title" := res.title.GetOr("")])
  }

  function WebDocuments(tool: WebTool, results: seq<WebResult>): (docs: seq<Document>)
    ensures |docs| == |results|
    ensures forall i :: 0 <= i < |results| ==> docs[i] == WebDocument(tool, results[i])
  {
    seq(|results|, i requires 0 <= i < |results| => WebDocument(tool, results[i]))
  }

  /**
   * `web_search_node`: out of range or without a web tool, no documents. A failing
   * search gives no documents, but a failing query rewrite raises (it is outside
   * the `try`).
   */
  function WebSearchStep(env: Env, s: RagState): (r: Reply<RagState>)
    ensures !InRange(s) || env.webTool == NoWebTool ==> r == Answered(s.(retrievedDocs := []))
    ensures r.Raised? ==> InRange(s) && env.webTool != NoWebTool && RewriteQuery(env, s).Raised?
    ensures r.Answered? ==> r.value == s.(retrievedDocs := r.value.retrievedDocs)
  {
    if !InRange(s) || env.webTool == NoWebTool then Answered(s.(retrievedDocs := []))
    else
      match RewriteQuery(env, s)
      case Raised => Raised
      case Answered(query) =>
        var docs :=
          match env.webSearch(s.index, env.webTool, query, env.config.webSearchResults)
          case Raised => []
          case Answered(results) => WebDocuments(env.webTool, results);
        Answered(s.(retrievedDocs := docs))
  }

  /** `rerank_node`: keep the first `top_n_rerank` retrieved documents, in their order. */
  function RerankStep(env: Env, s: RagState): (r: RagState)
    ensures r.rerankedDocs <= s.retrievedDocs
    ensures |r.rerankedDocs| == Min(|s.retrievedDocs|, env.config.topNRerank)
    ensures r == s.(rerankedDocs := r.rerankedDocs)
  {
    s.(rerankedDocs := s.retrievedDocs[..Min(|s.retrievedDocs|, env.config.topNRerank)])
  }

  /** `compression_node`: distil the reranked documents for the current sub-question. */
  function CompressStep(env: Env, s: RagState): (r: Reply<RagState>)
    ensures !InRange(s) ==> r == Answered(s.(synthesizedContext := ""))
    ensures r.Answered? ==> r.value == s.(synthesizedContext := r.value.synthesizedContext)
  {
    if !InRange(s) then Answered(s.(synthesizedContext := ""))
    else
      match env.distiller(s.index, CurrentStep(s).subQuestion, FormatDocs(s.rerankedDocs))
      case Raised => Raised
      case Answered(c) => Answered(s.(synthesizedContext := c))
  }

  /** The record `reflection_node` appends for the current step. */
  function NewPastStep(s: RagState, summary: string): PastStep
    requires InRange(s)
  {
    PastStep(s.index + 1, CurrentStep(s).subQuestion, s.rerankedDocs, summary)
  }

  /**
   * `reflection_node`: with a plan and the index in range, append exactly one past
   * step, rebuild the research history from the new list and move to the next
   * step; otherwise leave everything as it is.
   */
  function ReflectStep(env: Env, s: RagState): (r: Reply<RagState>)
    ensures !InRange(s) ==> r == Answered(s)
    ensures InRange(s) ==> (r.Answered? <==> env.reflector(s.index, CurrentStep(s).subQuestion, s.synthesizedContext).Answered?)
    ensures InRange(s) && r.Answered? ==>
      var summary := env.reflector(s.index, CurrentStep(s).subQuestion, s.synthesizedContext).value;
      && r.value.pastSteps == s.pastSteps + [NewPastStep(s, summary)]
      && r.value.index == s.index + 1
      && r.value.researchHistory == PastContextStr(r.value.pastSteps)
      && r.value == s.(pastSteps := r.value.pastSteps, index := r.value.index, researchHistory := r.value.researchHistory)
  {
    if !InRange(s) then Answered(s)
    else
      match env.reflector(s.index, CurrentStep(s).subQuestion, s.synthesizedContext)
      case Raised => Raised
      case Answered(summary) =>
        var past := s.pastSteps + [NewPastStep(s, summary)];
        Answered(s.(pastSteps := past, index := s.index + 1, researchHistory := PastContextStr(past)))
  }

  /** `final_answer_node`: synthesise the answer from the findings of all past steps. */
  function FinalAnswerStep(env: Env, s: RagState): (r: Reply<RagState>)
    ensures r.Answered? <==> env.synthesizer(FinalAnswerPrompt, s.originalQuestion, Findings.FinalContext(s.pastSteps)).Answered?
    ensures r.Answered? ==> r.value == s.(finalAnswer := r.value.finalAnswer)
  {
    match env.synthesizer(FinalAnswerPrompt, s.originalQuestion, Findings.FinalContext(s.pastSteps))
    case Raised => Raised
    case Answered(a) => Answered(s.(finalAnswer := a))
  }

  // ---------------------------------------------------------------------
  // Routing
  // ---------------------------------------------------------------------

  datatype Route = ToSearchDocuments | ToSearchWeb | ToFinalize

  /**
   * `route_by_tool`: the current step's tool picks the branch (`search_10k` is a
   * legacy name for document search); no plan, an exhausted plan or an unknown
   * tool finalises.
   */
  function RouteByTool(s: RagState): (r: Route)
    ensures r == ToSearchDocuments <==>
      InRange(s) && (CurrentStep(s).tool == "search_documents" || CurrentStep(s).tool == "search_10k")
    ensures r == ToSearchWeb <==> InRange(s) && CurrentStep(s).tool == "search_web"
  {
    if !InRange(s) then ToFinalize
    else
      var tool := CurrentStep(s).tool;
      if tool == "search_10k" || tool == "search_documents" then ToSearchDocuments
      else if tool == "search_web" then ToSearchWeb
      else ToFinalize
  }

  /** With a plan whose tools are all declared, routing finalises exactly when the plan is exhausted or missing. */
  lemma RouteDeclaredTools(s: RagState)
    requires s.plan.Some? && WellTypedPlan(s.plan.value)
    ensures RouteByTool(s) == ToFinalize <==> !InRange(s)
  {
  }

  /**
   * What the policy agent is asked, or `None` when a structural check stops the
   * run without asking: the step budget is spent, there is no plan, or every
   * planned step is done. The agent sees the budget capped at the plan's length.
   */
  function PolicyQuery(s: RagState): (q: Option<PolicyInput>)
    ensures q.Some? <==> s.index < s.maxSteps && InRange(s)
    ensures q.Some? ==>
      && q.value.currentStep == s.index
      && q.value.totalSteps == |Steps(s)|
      && q.value.maxSteps == Min(s.maxSteps, |Steps(s)|)
      && q.value.researchHistory == s.researchHistory
  {
    if s.index >= s.maxSteps then None
    else if s.plan.None? then None
    else
      var total := |s.plan.value.steps|;
      if s.index >= total then None
      else Some(PolicyInput(s.originalQuestion, s.researchHistory, s.index, Min(s.maxSteps, total), total))
  }

  /**
   * `should_continue_node`: the structural checks first; then the agent's "stop" is
   * honoured, and an agent that raises lets the run go on, since steps remain.
   */
  function ShouldContinue(env: Env, s: RagState): (d: Decision)
    ensures d == Continue ==> s.index < s.maxSteps && InRange(s)
    ensures d == Continue <==>
      PolicyQuery(s).Some? &&
      (env.policy(PolicyQuery(s).value).Raised? || env.policy(PolicyQuery(s).value).value.decision.Continue?)
  {
    var query := PolicyQuery(s);
    if query.None? then Stop
    else
      var reply := env.policy(query.value);
      if reply.Answered? then
        if reply.value.decision.Stop? then Stop
        else if s.index >= |Steps(s)| then Stop  // safety net; the structural check already excludes it
        else Continue
      else if s.index >= |Steps(s)| then Stop
      else Continue
  }

  // ---------------------------------------------------------------------
  // The graph
  // ---------------------------------------------------------------------

  datatype Node = PlanNode | ChooseNextTool | RetrieveDocuments | RetrieveWeb | Rerank | Compress | Reflect | GenerateFinalAnswer

  datatype Next = GoTo(node: Node) | End

  /** Run one node on the state; `choose_next_tool` passes the state through. */
  function RunNode(env: Env, n: Node, s: RagState): Reply<RagState> {
    match n
    case PlanNode => PlanNodeStep(env, s)
    case ChooseNextTool => Answered(s)
    case RetrieveDocuments => RetrieveDocumentsStep(env, s)
    case RetrieveWeb => WebSearchStep(env, s)
    case Rerank => Answered(RerankStep(env, s))
    case Compress => CompressStep(env, s)
    case Reflect => ReflectStep(env, s)
    case GenerateFinalAnswer => FinalAnswerStep(env, s)
  }

  /** The edges, evaluated on the state the node produced. */
  function Successor(env: Env, n: Node, s: RagState): (next: Next)
    ensures next.End? <==> n == GenerateFinalAnswer
    ensures next != GoTo(PlanNode)
    ensures next == GoTo(ChooseNextTool) <==> n == PlanNode || (n == Reflect && ShouldContinue(env, s) == Continue)
    ensures next == GoTo(Rerank) <==> n == RetrieveDocuments || n == RetrieveWeb
    ensures next == GoTo(GenerateFinalAnswer) <==>
      (n == ChooseNextTool && RouteByTool(s) == ToFinalize) || (n == Reflect && ShouldContinue(env, s) == Stop)
  {
    match n
    case PlanNode => GoTo(ChooseNextTool)
    case ChooseNextTool =>
      (match RouteByTool(s)
       case ToSearchDocuments => GoTo(RetrieveDocuments)
       case ToSearchWeb => GoTo(RetrieveWeb)
       case ToFinalize => GoTo(GenerateFinalAnswer))
    case RetrieveDocuments => GoTo(Rerank)
    case RetrieveWeb => GoTo(Rerank)
    case Rerank => GoTo(Compress)
    case Compress => GoTo(Reflect)
    case Reflect => if ShouldContinue(env, s) == Continue then GoTo(ChooseNextTool) else GoTo(GenerateFinalAnswer)
    case GenerateFinalAnswer => End
  }

  /** Why a run stopped early: the step budget ran out, or a node raised. */
  datatype Failure = RecursionLimit | NodeFailure

  datatype Ending = Completed | Failed(failure: Failure)

  /** The streamed snapshots and how the stream ended. */
  datatype Trace = Trace(states: seq<RagState>, ending: Ending)

  /**
   * The graph engine: run node `n` with `step`, follow `edge` from the state it
   * produced, and stream the state after every node, with a budget of `fuel`
   * nodes. A node that raises ends the stream.
   */
  function RunGraph(step: (Node, RagState) -> Reply<RagState>, edge: (Node, RagState) -> Next,
                    n: Node, s: RagState, fuel: nat): (t: Trace)
    decreases fuel
  {
    if fuel == 0 then Trace([], Failed(RecursionLimit))
    else
      match step(n, s)
      case Raised => Trace([], Failed(NodeFailure))
      case Answered(s') =>
        match edge(n, s')
        case End => Trace([s'], Completed)
        case GoTo(m) =>
          var rest := RunGraph(step, edge, m, s', fuel - 1);
          Trace([s'] + rest.states, rest.ending)
  }

  /** The node functions of the deep-RAG graph. */
  function Nodes(env: Env): (Node, RagState) -> Reply<RagState> {
    (m: Node, x: RagState) => RunNode(env, m, x)
  }

  /** The edges of the deep-RAG graph. */
  function Edges(env: Env): (Node, RagState) -> Next {
    (m: Node, x: RagState) => Successor(env, m, x)
  }

  /** Run the deep-RAG graph from node `n` with budget `fuel` nodes. */
  function Execute(env: Env, n: Node, s: RagState, fuel: nat): (t: Trace) {
    RunGraph(Nodes(env), Edges(env), n, s, fuel)
  }

  /** The recursion limit `answer` passes with the stream. */
  const RecursionLimitDefault: nat := 200

  /** A whole run: the initial state is streamed first, then the graph runs from `plan`. */
  function Run(env: Env, question: string, maxSteps: int, limit: nat): (t: Trace)
    ensures t.states != [] && t.states[0] == InitialState(question, maxSteps)
  {
    var s0 := InitialState(question, maxSteps);
    var t := Execute(env, PlanNode, s0, limit);
    Trace([s0] + t.states, t.ending)
  }

  // ---------------------------------------------------------------------
  // Invariants
  // ---------------------------------------------------------------------

  /**
   * The state invariant: one past step per completed step, numbered from 1 and
   * following the plan's sub-questions; the index within the plan and within the
   * step budget (one step is always taken); the research history rendered from
   * the past steps; at most `top_n_rerank` documents kept per step.
   */
  predicate Inv(cfg: Config, s: RagState) {
    && |s.pastSteps| == s.index
    && s.index <= |Steps(s)|
    && (s.index <= 1 || s.index <= s.maxSteps)
    && (forall i :: 0 <= i < s.index ==>
          && s.pastSteps[i].stepIndex == i + 1
          && s.pastSteps[i].subQuestion == Steps(s)[i].subQuestion
          && |s.pastSteps[i].retrievedDocs| <= cfg.topNRerank)
    && s.researchHistory == PastContextStr(s.pastSteps)
    && |s.rerankedDocs| <= cfg.topNRerank
  }

  lemma InitialInv(cfg: Config, question: string, maxSteps: int)
    ensures Inv(cfg, InitialState(question, maxSteps))
  {
    PastContextStrSmall([]);
  }

  /** Another step may run: it is the first, or the budget is not spent. */
  predicate MayCycle(s: RagState) {
    s.index == 0 || s.index < s.maxSteps
  }

  /** What holds whenever node `n` is about to run on `s`. */
  predicate At(cfg: Config, n: Node, s: RagState) {
    Inv(cfg, s) &&
    match n
    case PlanNode => s.plan.None?
    case ChooseNextTool => s.plan.Some? && MayCycle(s)
    case GenerateFinalAnswer => true
    case _ => InRange(s) && MayCycle(s)
  }

  /** Planned steps not yet done. */
  function Remaining(s: RagState): nat {
    if s.index <= |Steps(s)| then |Steps(s)| - s.index else 0
  }

  /** An upper bound on the nodes still to run from `n`: five per remaining step, plus the final answer. */
  function Cost(env: Env, n: Node, s: RagState): nat {
    var r := Remaining(s);
    match n
    case PlanNode =>
      (match env.planner(s.originalQuestion)
       case Answered(p) => 5 * |p.steps| + 3
       case Raised => 1)
    case ChooseNextTool => 5 * r + 2
    case RetrieveDocuments => 5 * r + 1
    case RetrieveWeb => 5 * r + 1
    case Rerank => 5 * r
    case Compress => if r == 0 then 0 else 5 * r - 1
    case Reflect => if r == 0 then 0 else 5 * r - 2
    case GenerateFinalAnswer => 1
  }

  /** A state that keeps the plan, the past steps, the index, the history and the reranked documents keeps the invariant. */
  lemma InvKept(cfg: Config, s: RagState, s': RagState)
    requires Inv(cfg, s)
    requires s'.plan == s.plan && s'.pastSteps == s.pastSteps && s'.index == s.index && s'.maxSteps == s.maxSteps
    requires s'.researchHistory == s.researchHistory
    requires |s'.rerankedDocs| <= cfg.topNRerank
    ensures Inv(cfg, s')
  {
    assert Steps(s') == Steps(s);
  }

  lemma PlanNodeInv(env: Env, s: RagState)
    requires Inv(env.config, s) && s.plan.None?
    requires PlanNodeStep(env, s).Answered?
    ensures Inv(env.config, PlanNodeStep(env, s).value)
  {
    PastContextStrSmall([]);
  }

  lemma ReflectInv(env: Env, s: RagState)
    requires Inv(env.config, s)
    requires InRange(s) && MayCycle(s)
    requires ReflectStep(env, s).Answered?
    ensures Inv(env.config, ReflectStep(env, s).value)
  {
    var s' := ReflectStep(env, s).value;
    assert s'.pastSteps[..s.index] == s.pastSteps;
    assert Steps(s') == Steps(s);
    forall i | 0 <= i < s'.index
      ensures s'.pastSteps[i].stepIndex == i + 1 && s'.pastSteps[i].subQuestion == Steps(s')[i].subQuestion
      ensures |s'.pastSteps[i].retrievedDocs| <= env.config.topNRerank
    {
      if i < s.index {
        assert s'.pastSteps[i] == s.pastSteps[i];
      }
    }
  }

  /** Each node keeps the invariant. */
  lemma RunNodeInv(env: Env, n: Node, s: RagState)
    requires At(env.config, n, s)
    requires RunNode(env, n, s).Answered?
    ensures Inv(env.config, RunNode(env, n, s).value)
  {
    var s' := RunNode(env, n, s).value;
    match n
    case PlanNode => PlanNodeInv(env, s);
    case Reflect =>
      if InRange(s) {
        ReflectInv(env, s);
      }
    case ChooseNextTool =>
    case _ => InvKept(env.config, s, s');
  }

  /** Each edge leads to a node whose entry condition holds, with a smaller remaining cost. */
  lemma {:induction false} SuccessorAt(env: Env, n: Node, s: RagState)
    requires At(env.config, n, s)
    requires RunNode(env, n, s).Answered?
    requires Successor(env, n, RunNode(env, n, s).value).GoTo?
    ensures var s' := RunNode(env, n, s).value; var m := Successor(env, n, s').node;
      At(env.config, m, s') && Cost(env, m, s') < Cost(env, n, s)
  {
    RunNodeInv(env, n, s);
    var s' := RunNode(env, n, s).value;
    match n
    case PlanNode => {
      assert Remaining(s') == |env.planner(s.originalQuestion).value.steps|;
    }
    case ChooseNextTool => {
    }
    case Reflect => {
      assert s'.index == s.index + 1;
      if ShouldContinue(env, s') == Continue {
        assert Remaining(s') == Remaining(s) - 1;
      }
    }
    case GenerateFinalAnswer => {
    }
    case RetrieveDocuments | RetrieveWeb | Rerank | Compress => {
      var m := Successor(env, n, s').node;
      assert At(env.config, m, s') && Cost(env, m, s') < Cost(env, n, s);
    }
  }

  /** Snapshot `b` follows snapshot `a`: past steps only grow at the end, and the index grows by at most one. */
  predicate Follows(a: RagState, b: RagState) {
    && |a.pastSteps| <= |b.pastSteps|
    && b.pastSteps[..|a.pastSteps|] == a.pastSteps
    && (b.index == a.index || b.index == a.index + 1)
  }

  /** A node keeps the earlier past steps and moves the index by at most one. */
  lemma RunNodeFollows(env: Env, n: Node, s: RagState)
    requires At(env.config, n, s)
    requires RunNode(env, n, s).Answered?
    ensures Follows(s, RunNode(env, n, s).value)
  {
    var s' := RunNode(env, n, s).value;
    if n == Reflect && InRange(s) {
      assert s'.pastSteps[..|s.pastSteps|] == s.pastSteps;
    }
  }

  /** Every snapshot satisfies the invariant. */
  predicate AllInv(cfg: Config, states: seq<RagState>) {
    forall k :: 0 <= k < |states| ==> Inv(cfg, states[k])
  }

  /** Every snapshot follows the one before it. */
  predicate Chained(states: seq<RagState>) {
    forall k :: 0 <= k < |states| - 1 ==> Follows(states[k], states[k + 1])
  }

  /**
   * Each snapshot satisfies the invariant and follows the one before it, the
   * first following `prev`.
   */
  predicate GoodTrace(cfg: Config, prev: RagState, states: seq<RagState>)
    decreases |states|
  {
    states == [] ||
    (Inv(cfg, states[0]) && Follows(prev, states[0]) && GoodTrace(cfg, states[0], states[1..]))
  }

  lemma {:induction false} GoodTraceAll(cfg: Config, prev: RagState, states: seq<RagState>)
    requires GoodTrace(cfg, prev, states)
    ensures AllInv(cfg, states) && Chained(states)
    ensures states != [] ==> Follows(prev, states[0])
    decreases |states|
  {
    if states != [] {
      var rest := states[1..];
      GoodTraceAll(cfg, states[0], rest);
      assert forall k :: 1 <= k < |states| ==> states[k] == rest[k - 1];
    }
  }

  /** One node run from an entry state: the invariant, `Follows`, and the entry condition of the next node. */
  lemma StepGood(env: Env, n: Node, s: RagState)
    requires At(env.config, n, s)
    requires RunNode(env, n, s).Answered?
    ensures Inv(env.config, RunNode(env, n, s).value) && Follows(s, RunNode(env, n, s).value)
    ensures Successor(env, n, RunNode(env, n, s).value).GoTo? ==>
      At(env.config, Successor(env, n, RunNode(env, n, s).value).node, RunNode(env, n, s).value)
  {
    RunNodeInv(env, n, s);
    RunNodeFollows(env, n, s);
    if Successor(env, n, RunNode(env, n, s).value).GoTo? {
      SuccessorAt(env, n, s);
    }
  }

  /** Every node run from its entry condition keeps the invariant, and its edge leads to a node whose entry condition holds. */
  ghost predicate KeepsAt(cfg: Config, step: (Node, RagState) -> Reply<RagState>, edge: (Node, RagState) -> Next) {
    forall n, s :: At(cfg, n, s) && step(n, s).Answered? ==>
      && Inv(cfg, step(n, s).value) && Follows(s, step(n, s).value)
      && (edge(n, step(n, s).value).GoTo? ==> At(cfg, edge(n, step(n, s).value).node, step(n, s).value))
  }

  /** Every node run from its entry condition has a positive cost, and an edge leads to a smaller one. */
  ghost predicate CostDecreases(cfg: Config, step: (Node, RagState) -> Reply<RagState>, edge: (Node, RagState) -> Next,
                          cost: (Node, RagState) -> nat) {
    forall n, s :: At(cfg, n, s) ==>
      && cost(n, s) > 0
      && (step(n, s).Answered? && edge(n, step(n, s).value).GoTo? ==>
            cost(edge(n, step(n, s).value).node, step(n, s).value) < cost(n, s))
  }

  /** A graph whose nodes keep the entry conditions streams only good snapshots. */
  lemma {:induction false} RunGraphInv(cfg: Config, step: (Node, RagState) -> Reply<RagState>, edge: (Node, RagState) -> Next,
                                       n: Node, s: RagState, fuel: nat)
    requires KeepsAt(cfg, step, edge)
    requires At(cfg, n, s)
    ensures GoodTrace(cfg, s, RunGraph(step, edge, n, s, fuel).states)
    decreases fuel
  {
    if fuel > 0 && step(n, s).Answered? {
      var s' := step(n, s).value;
      if edge(n, s').GoTo? {
        var m := edge(n, s').node;
        RunGraphInv(cfg, step, edge, m, s', fuel - 1);
        var t := RunGraph(step, edge, n, s, fuel).states;
        assert t[0] == s' && t[1..] == RunGraph(step, edge, m, s', fuel - 1).states;
      }
    }
  }

  /** With a budget of at least the cost of the entry node, the graph never ends at the recursion limit. */
  lemma {:induction false} RunGraphWithinBudget(cfg: Config, step: (Node, RagState) -> Reply<RagState>, edge: (Node, RagState) -> Next,
                                                cost: (Node, RagState) -> nat, n: Node, s: RagState, fuel: nat)
    requires KeepsAt(cfg, step, edge) && CostDecreases(cfg, step, edge, cost)
    requires At(cfg, n, s)
    requires fuel >= cost(n, s)
    ensures RunGraph(step, edge, n, s, fuel).ending != Failed(RecursionLimit)
    decreases fuel
  {
    if step(n, s).Answered? {
      var s' := step(n, s).value;
      if edge(n, s').GoTo? {
        RunGraphWithinBudget(cfg, step, edge, cost, edge(n, s').node, s', fuel - 1);
      }
    }
  }

  /** The deep-RAG nodes keep their entry conditions. */
  lemma NodesKeepAt(env: Env)
    ensures KeepsAt(env.config, Nodes(env), Edges(env))
  {
    forall n, s | At(env.config, n, s) && RunNode(env, n, s).Answered?
      ensures Inv(env.config, RunNode(env, n, s).value) && Follows(s, RunNode(env, n, s).value)
      ensures Successor(env, n, RunNode(env, n, s).value).GoTo? ==>
        At(env.config, Successor(env, n, RunNode(env, n, s).value).node, RunNode(env, n, s).value)
    {
      StepGood(env, n, s);
    }
  }

  /** `Cost` bounds the nodes still to run. */
  lemma NodesCostDecreases(env: Env)
    ensures CostDecreases(env.config, Nodes(env), Edges(env), (m: Node, x: RagState) => Cost(env, m, x))
  {
    forall n, s | At(env.config, n, s)
      ensures Cost(env, n, s) > 0
      ensures RunNode(env, n, s).Answered? && Successor(env, n, RunNode(env, n, s).value).GoTo? ==>
        Cost(env, Successor(env, n, RunNode(env, n, s).value).node, RunNode(env, n, s).value) < Cost(env, n, s)
    {
      if RunNode(env, n, s).Answered? && Successor(env, n, RunNode(env, n, s).value).GoTo? {
        SuccessorAt(env, n, s);
      }
    }
  }

  /** Every streamed snapshot satisfies the invariant and follows the one before it. */
  lemma ExecuteInv(env: Env, n: Node, s: RagState, fuel: nat)
    requires At(env.config, n, s)
    ensures GoodTrace(env.config, s, Execute(env, n, s, fuel).states)
  {
    NodesKeepAt(env);
    RunGraphInv(env.config, Nodes(env), Edges(env), n, s, fuel);
  }

  /** With a budget of at least `Cost` nodes, the run never ends at the recursion limit. */
  lemma ExecuteWithinBudget(env: Env, n: Node, s: RagState, fuel: nat)
    requires At(env.config, n, s)
    requires fuel >= Cost(env, n, s)
    ensures Execute(env, n, s, fuel).ending != Failed(RecursionLimit)
  {
    NodesKeepAt(env);
    NodesCostDecreases(env);
    RunGraphWithinBudget(env.config, Nodes(env), Edges(env), (m: Node, x: RagState) => Cost(env, m, x), n, s, fuel);
  }

  /**
   * Termination: a run whose plan has `N` steps runs at most `5 N + 3` nodes, so a
   * budget of that many nodes is never exhausted; with the default limit of 200
   * this covers every plan of up to 39 steps.
   */
  lemma RunWithinBudget(env: Env, question: string, maxSteps: int, limit: nat)
    requires limit > 0
    requires env.planner(question).Answered? ==> 5 * |env.planner(question).value.steps| + 3 <= limit
    ensures Run(env, question, maxSteps, limit).ending != Failed(RecursionLimit)
  {
    InitialInv(env.config, question, maxSteps);
    ExecuteWithinBudget(env, PlanNode, InitialState(question, maxSteps), limit);
  }

  lemma DefaultLimitSuffices(env: Env, question: string, maxSteps: int)
    requires env.planner(question).Answered? ==> |env.planner(question).value.steps| <= 39
    ensures Run(env, question, maxSteps, RecursionLimitDefault).ending != Failed(RecursionLimit)
  {
    RunWithinBudget(env, question, maxSteps, RecursionLimitDefault);
  }

  /**
   * Every snapshot of a run keeps the invariant, so the retrieve-to-reflect cycle
   * runs at most once per planned step, and at most `max(1, max_steps)` times; and
   * each snapshot keeps the earlier past steps and moves the index by at most one.
   */
  lemma RunInv(env: Env, question: string, maxSteps: int, limit: nat)
    ensures var t := Run(env, question, maxSteps, limit);
      AllInv(env.config, t.states) && Chained(t.states)
  {
    var s0 := InitialState(question, maxSteps);
    InitialInv(env.config, question, maxSteps);
    ExecuteInv(env, PlanNode, s0, limit);
    var t := Run(env, question, maxSteps, limit).states;
    assert t == [s0] + Execute(env, PlanNode, s0, limit).states;
    assert t[0] == s0 && t[1..] == Execute(env, PlanNode, s0, limit).states;
    assert s0.pastSteps[..|s0.pastSteps|] == s0.pastSteps;
    GoodTraceAll(env.config, s0, t);
  }

  /**
   * With a budget of at least one node and a planner that answers, the second
   * snapshot of a run carries the new plan, at step 0, with no past steps and no
   * final answer.
   */
  lemma RunOpensWithPlan(env: Env, question: string, maxSteps: int, limit: nat)
    requires limit > 0 && env.planner(question).Answered?
    ensures var t := Run(env, question, maxSteps, limit);
      && |t.states| >= 2
      && t.states[1].plan == Some(env.planner(question).value)
      && t.states[1].index == 0 && t.states[1].pastSteps == [] && t.states[1].finalAnswer == ""
  {
    var s0 := InitialState(question, maxSteps);
    var s1 := s0.(plan := Some(env.planner(question).value), index := 0, pastSteps := []);
    assert Nodes(env)(PlanNode, s0) == Answered(s1);
    assert Edges(env)(PlanNode, s1) == GoTo(ChooseNextTool);
    assert Execute(env, PlanNode, s0, limit).states[0] == s1;
  }

  /** Appending a step extends a non-empty research history by a blank line and the new entry. */
  lemma ReflectExtendsHistory(env: Env, s: RagState)
    requires Inv(env.config, s) && InRange(s) && s.pastSteps != []
    requires ReflectStep(env, s).Answered?
    ensures var s' := ReflectStep(env, s).value;
      s'.researchHistory == s.researchHistory + "\n\n" + PastStepEntry(s'.pastSteps[|s'.pastSteps| - 1])
  {
    var s' := ReflectStep(env, s).value;
    PastContextStrAppend(s.pastSteps, s'.pastSteps[|s'.pastSteps| - 1]);
  }
}
