# Deep RAG: a verified model of the orchestrator, the hybrid retriever and the service

Deep RAG answers a question with a multi-step research loop built on a state
graph. A planner agent breaks the question into steps. Each step then goes
through the same cycle:

- routing to document search or web search by the step's tool;
- retrieval, with a supervisor choosing vector, keyword (BM25) or hybrid search;
- reranking (keep the first `top_n_rerank` documents) and compression;
- reflection, which appends a past step and moves the step index on;
- a policy check that decides whether another step runs.

Afterwards a synthesiser writes the final answer from the findings of every
step.

Around that loop sit four other pieces:

- **Hybrid retrieval** fuses the BM25 ranking and the semantic ranking with
  Reciprocal Rank Fusion (RRF). An id's fused score is the sum of `1/(rank + 61)`
  over both lists.
- **Document segmentation** cuts the ingested text into sections. It uses
  headers, or falls back to paragraphs. Each section becomes chunks tagged with
  their section, source file and a fresh id.
- **A streaming fold** turns the graph's state snapshots into progress events.
- **A service wrapper** builds the system once, reports whether it is ready,
  and can override the step budget for a single call, restoring it afterwards.

## Modules

| file | module | what it holds |
|---|---|---|
| `wrappers.dfy` | `Wrappers` | `Option` and `Result` |
| `text.dfy` | `Text` | the Python `str` operations used (`split`, `join`, `strip`, `replace`, slicing, `isupper`, `str(int)`), over ASCII |
| `graph_nodes.dfy` | `GraphNodes` | the state records (`Step`, `Plan`, `PastStep`, the decisions), `get_past_context_str`, `format_docs` |
| `ranking.dfy` | `Ranking` | the stable ranking by score behind `np.argsort(...)[::-1]` and `sorted(..., reverse=True)` |
| `retrieval.dfy` | `Retrieval` | `HybridRetriever`: the id maps, vector search with its section filter, BM25 top-k, RRF fusion |
| `findings.dfy` | `Findings` | the "Findings from Research Step" context assembled for the final answer |
| `deep_rag.dfy` | `DeepRag` | the nodes, `route_by_tool`, `should_continue_node`, the graph run, and its invariant and termination proofs |
| `answer.dfy` | `Answering` | `DeepRAGSystem`: `compile`, `answer` and its recursion-limit recovery |
| `streaming.dfy` | `Streaming` | `stream_deep_rag_response` |
| `service.dfy` | `Service` | `DeepRAGService` and `get_service` |
| `segmentation.dfy` | `Segmentation` | `process_documents_with_metadata` |

## How the model works

**Agents are oracles.** Every language-model agent, and every search backend, is
a function in an `Env` value. The agents are the planner, rewriter, supervisor,
distiller, reflector, policy and synthesiser; they and web search return
`Answered(v)`, or `Raised` when the call throws. The two retrieval backends, BM25
scoring and FAISS similarity, are total functions: the orchestrator does not
catch their failures. Each agent input that varies between steps carries the
step index, and a run visits each index at most once. So a function of its
inputs is as general as a fresh answer on every call.

**The graph run.** LangGraph's engine is `DeepRag.RunGraph`, generic in the
node function and the edge function. It runs a node, picks the successor along
the edges, and streams the state after each node. It stops when `END` is
reached, when a node raises, or when the recursion budget (a fuel counted in
node executions) runs out. Its invariant and termination lemmas hold for any
graph whose nodes keep an invariant and whose edges decrease a cost.
`DeepRag.Execute` instantiates it with the Deep RAG nodes (`RunNode`) and edges
(`Successor`).

**The answer path.** `DeepRAGSystem.answer` is `Answering.AnswerFromTrace`. It
is a loop over the streamed snapshots with the source's exception handling, and
is proved equal to `Answering.AnswerSpec`.

**Loops as methods.** The imperative parts are methods whose loops are proved
equal to specification functions:

- the nested RRF loops of `hybrid_search`;
- the `final_context` loops;
- the header, section, paragraph and chunk loops of segmentation;
- the streaming loop.

**Classes.** The service and the system are classes whose fields their methods
update.

## Model

| member | source | states |
|---|---|---|
| `Text.StrIsUpperHasUpperLetter` | src/utils.py:46 | a string that is `isupper()` contains an upper-case letter, so the header test's second clause reduces to its `any` part |
| `Text.Join` | src/graph_nodes.py:65-68 | joining no parts gives `""`; joining one part gives that part |
| `Text.JoinAppend` | src/graph_nodes.py:65-68 | joining a non-empty list with one more part appends the separator and that part |
| `Text.Split` | src/retrieval.py:49 | `str.split(sep)` always yields at least one piece |
| `Text.JoinSplit` | src/retrieval.py:49 | joining the pieces of `split(sep)` with `sep` gives the original string back |
| `Text.SplitWithoutSeparator` | src/utils.py:34 | a string without the separator splits into itself alone |
| `Text.SplitJoin` | src/utils.py:34 | splitting a join of separator-free parts on that separator gives the parts back |
| `Text.SplitPrefix` | src/utils.py:34 | a separator-free prefix followed by the separator is the first piece, and the rest splits on its own |
| `Text.LeadingSpacesSpec` | src/utils.py:38 | the counted prefix is all whitespace, and the next character is not |
| `Text.TrailingSpacesSpec` | src/utils.py:38 | the counted suffix is all whitespace, and the character before it is not |
| `Text.Strip` | src/utils.py:38 | `strip()` never lengthens a string |
| `Text.StripSpec` | src/utils.py:38 | a stripped string is empty or starts and ends with non-whitespace; it is empty exactly when the input is all whitespace |
| `Text.StripAbsent` | src/utils.py:101 | stripping introduces no character that was absent |
| `Text.ReplaceChar` | src/utils.py:101 | `replace` of one character by another keeps the length |
| `Text.ReplaceCharRemoves` | src/utils.py:101 | after replacing `a` by a different character, no `a` is left |
| `Text.Take` | src/utils.py:101 | `s[:n]` is the prefix of `s` of length `min(n, len(s))` |
| `Text.NatToString` | src/retrieval.py:50 | `str(i)` is a non-empty string of decimal digits |
| `Text.NatToStringRoundTrip` | src/retrieval.py:50 | the decimal value of `str(i)` is `i` |
| `GraphNodes.PastStepEntries` | src/graph_nodes.py:65-67 | one entry per past step, in order, each rendered from its index, sub-question and summary |
| `GraphNodes.PastContextStrSmall` | src/graph_nodes.py:63-68 | no past steps give `""`; one step gives exactly its entry |
| `GraphNodes.PastContextStrAppend` | src/graph_nodes.py:63-68 | appending a step to a non-empty list gives the old text, a blank line and the new entry |
| `GraphNodes.DocContents` | src/graph_nodes.py:73 | the page contents of the documents, in order |
| `GraphNodes.FormatDocsSmall` | src/graph_nodes.py:71-73 | no documents give `""`; one document gives its content |
| `GraphNodes.FormatDocsAppend` | src/graph_nodes.py:71-73 | one more document appends the `---` separator and its content |
| `Ranking.BeforeTotal` | src/retrieval.py:113 | of two distinct positions, one is ranked before the other |
| `Ranking.BeforeTransitive` | src/retrieval.py:113 | ranking before is transitive |
| `Ranking.Insert` | src/retrieval.py:113 | inserting a position lengthens the list by one and keeps every entry a valid position |
| `Ranking.InsertElements` | src/retrieval.py:113 | after inserting `x`, the list holds exactly `x` and the entries it held before |
| `Ranking.InsertInRange` | src/retrieval.py:113 | inserting a position below a bound into positions below it keeps all of them below it |
| `Ranking.InsertSorted` | src/retrieval.py:113 | inserting a new position into a ranked list keeps it ranked |
| `Ranking.RankPrefix` | src/retrieval.py:113 | ranking the first `n` positions yields `n` entries, each below `n` |
| `Ranking.RankPrefixAll` | src/retrieval.py:113 | ranking the first `n` positions lists every one of them |
| `Ranking.Rank` | src/retrieval.py:73 | the ranking lists one position per score |
| `Ranking.RankPrefixSorted` | src/retrieval.py:113 | the ranking of any prefix is ordered by score, with ties broken by position |
| `Ranking.RankIsSortedPermutation` | src/retrieval.py:73-113 | the ranking is a permutation of all positions, ordered by score, with ties broken by position |
| `Ranking.SortedDistinct` | src/retrieval.py:113 | a ranked list has no repeated position |
| `Ranking.SortedOrderRespected` | src/retrieval.py:113 | if position `x` ranks before `y`, then `x` is listed first |
| `Ranking.Arrange` | src/retrieval.py:113 | entry `j` of the arranged list is the item at rank `j` |
| `Ranking.ArrangePermutation` | src/retrieval.py:113 | arranging by the ranking keeps exactly the items, and keeps distinct items distinct |
| `Ranking.TopK` | src/retrieval.py:73 | the top-k positions are valid positions |
| `Ranking.PrefixOutranksRest` | src/retrieval.py:73 | any position left out of a ranking prefix scores no higher than every position in it |
| `Ranking.TopKSpec` | src/retrieval.py:73 | `argsort[::-1][:k]` gives `min(k, n)` distinct positions in non-increasing score; none left out scores higher than one kept |
| `Retrieval.Keys` | src/retrieval.py:50 | each key is the document's `id`, or its position as a string |
| `Retrieval.LastByKey` | src/retrieval.py:51 | the dict has exactly the listed keys; the last pair with a key wins; every value is one of the documents |
| `Retrieval.LastByKeyFromPairs` | src/retrieval.py:51 | every dict entry comes from some input pair with that key |
| `Retrieval.Build` | src/retrieval.py:29-52 | every id in the id list has a document; the map holds each id's last document and only corpus documents; one token list per document |
| `Retrieval.BuildCorpusLossless` | src/retrieval.py:49 | each document's single-space tokens join back to its content |
| `Retrieval.InSection` | src/retrieval.py:58-61 | keeps exactly the documents whose `section` (default `""`) equals the filter |
| `Retrieval.VectorScope` | src/retrieval.py:54-67 | a section index is searched exactly when the filter is non-empty, does not contain "Unknown", and matches some document; that index holds exactly the matching documents; otherwise the whole store |
| `Retrieval.VectorSearch` | src/retrieval.py:54-67 | without an applicable filter, or when no document is in the filter's section, the whole store is searched; otherwise the index of the documents in that section |
| `Retrieval.Bm25Search` | src/retrieval.py:69-74 | `bm25_search` returns `min(k, n)` documents, all from the corpus when the id map holds corpus documents |
| `Retrieval.Bm25Scores` | src/retrieval.py:71-72 | one BM25 score per corpus document, for the single-space tokens of the query |
| `Retrieval.Bm25Ranking` | src/retrieval.py:73 | the selected positions are corpus positions |
| `Retrieval.Bm25SearchRanked` | src/retrieval.py:69-74 | on a retriever whose id map finds each corpus document under its id, `bm25_search` returns `min(k, n)` distinct corpus documents, best score first; no document left out scores higher |
| `Retrieval.Bm25SearchSpec` | src/retrieval.py:69-74 | with distinct ids, `bm25_search` returns `min(k, n)` distinct corpus documents, best score first; no document left out scores higher |
| `Retrieval.FirstSeen` | src/retrieval.py:106-110 | the dict's key order lists exactly the keys seen |
| `Retrieval.FirstSeenDistinct` | src/retrieval.py:106-110 | each key is listed once |
| `Retrieval.RrfSumAbsent` | src/retrieval.py:108-111 | a list without the key contributes nothing to its score |
| `Retrieval.RrfSumSingle` | src/retrieval.py:108-111 | a key at exactly one position `p` receives `1/(p + 61)` from that list |
| `Retrieval.FusionScores` | src/retrieval.py:106-111 | one fused score per candidate key |
| `Retrieval.FusionOrder` | src/retrieval.py:113 | the sorted key list has one entry per candidate |
| `Retrieval.FusionOrderAt` | src/retrieval.py:113 | entry `j` of the sorted keys is the candidate at rank `j`, carrying that candidate's score |
| `Retrieval.FusionOrderPermutation` | src/retrieval.py:106-113 | the sorted keys are exactly the distinct ids of both lists, each once |
| `Retrieval.FusionOrderSorted` | src/retrieval.py:113 | fused scores do not increase along the sorted keys; ties keep first-insertion order (BM25 list first) |
| `Retrieval.Fuse` | src/retrieval.py:99-115 | a fusion without `KeyError` returns `min(k, n)` documents for `n` distinct keys, each from one of the two lists; `None` stands for the `KeyError` |
| `Retrieval.FuseSpec` | src/retrieval.py:99-115 | with ids present, fusion succeeds with exactly `min(k, n)` documents for `n` distinct ids, each from one of the two lists, with no id twice, in non-increasing fused score, and no id left out scoring higher than a kept one |
| `Retrieval.FuseSorted` | src/retrieval.py:110-114 | with ids present, the fused output is in non-increasing fused score |
| `Retrieval.FuseOutranksRest` | src/retrieval.py:113-114 | with ids present, every candidate id missing from the output scores no higher than every id in it |
| `Retrieval.FuseEntries` | src/retrieval.py:113-114 | with ids present, the output has exactly `min(k, n)` entries and entry `j` is a document of the two lists carrying the `j`-th sorted id |
| `Retrieval.KeysConcat` | src/retrieval.py:100-103 | with ids present, every key is the document's id, and the keys of the concatenated lists are the two key lists concatenated |
| `Retrieval.IdentifiedDict` | src/retrieval.py:100 | with ids present, the dict maps every candidate id to a document carrying that id |
| `Retrieval.RrfRankZero` | src/retrieval.py:106-111 | rank 0 in both lists scores 2/61; rank 0 in only one list scores 1/61 |
| `Retrieval.DoubleListedRanksFirst` | src/retrieval.py:106-113 | an id at rank `r` in both lists is ordered before an id found in one list only, at a rank no better than `r` |
| `Retrieval.MissingIdRaisesKeyError` | src/retrieval.py:100-114 | a semantic hit without an id behind an identified BM25 hit gets a key that the dict lacks, so fusion raises `KeyError` |
| `Retrieval.SumOverAbsent` | src/retrieval.py:107-111 | lists that never mention a key give it no score |
| `Retrieval.PairOfLists` | src/retrieval.py:101-104 | with two ranked lists, the total is the BM25 contribution plus the semantic one |
| `Retrieval.ListsSnoc` | src/retrieval.py:107 | the outer loop adds one list's keys and contributions at a time |
| `Retrieval.RrfSumSnoc` | src/retrieval.py:108-111 | one more position adds its reciprocal rank to its own key only |
| `Retrieval.FirstSeenStep` | src/retrieval.py:109-110 | a new key is appended to the key order; a seen key leaves it unchanged |
| `Retrieval.ExpectedStep` | src/retrieval.py:111 | the inner loop's `+=` adds `1/(i + 61)` to the current key only |
| `Retrieval.ExpectedFresh` | src/retrieval.py:109-110 | a key met for the first time starts from 0 |
| `Retrieval.AddStep` | src/retrieval.py:108-111 | one position of the inner loop keeps the key order equal to the keys in order of first sight, and every score equal to its expected running sum |
| `Retrieval.AddRankedList` | src/retrieval.py:108-111 | the inner loop extends the key order with the list's new keys and adds each position's reciprocal rank to its key |
| `Retrieval.AccumulateRrf` | src/retrieval.py:106-111 | the nested loops give exactly the keys of all lists, in first-seen order, each scored with its contributions from every list |
| `Retrieval.AccumulatedScores` | src/retrieval.py:105-112 | the keys and scores the loops accumulate over the two id lists are the fusion candidates, in first-seen order, and their fused scores |
| `Retrieval.FuseResults` | src/retrieval.py:99-115 | the fusion part of `hybrid_search` returns exactly `Fuse` of the two result lists |
| `Retrieval.HybridSearch` | src/retrieval.py:76-115 | `hybrid_search` returns exactly the fusion of the BM25 and vector results, with `KeyError` as `None` |
| `Findings.StepHeader` | src/deep_rag.py:554 | each step's header line is non-empty |
| `Findings.FinalContextEmpty` | src/deep_rag.py:759-767 | the findings context is empty exactly when there are no past steps |
| `Findings.FinalContextPrefix` | src/deep_rag.py:552-557 | the context of the first `k` steps is a prefix of the whole context |
| `Findings.FinalContextStep` | src/deep_rag.py:552-557 | step `i`'s header and document blocks follow the earlier steps' context, in order |
| `Findings.DocBlocksSnoc` | src/deep_rag.py:555-557 | appending a document's block to the blocks before it gives the blocks up to that document |
| `Findings.FinalContextSnoc` | src/deep_rag.py:552-557 | a step's header and blocks appended to the earlier steps' context give the context up to that step |
| `Findings.BuildFinalContext` | src/deep_rag.py:552-557 | the nested `+=` loops build exactly the findings context |
| `DeepRag.PlanNodeStep` | src/deep_rag.py:312-323 | the plan node sets the planner's plan and resets the index to 0 and the past steps to empty; it raises exactly when the planner does |
| `DeepRag.Fetch` | src/deep_rag.py:356-380 | without a retriever, the whole vector store is searched, raising exactly when there is no store; with one, vector and keyword search always answer, keyword search gives `min(k, n)` corpus documents, and hybrid search gives at most `k` |
| `DeepRag.RetrieveDocumentsStep` | src/deep_rag.py:325-382 | with no plan or an index out of range the retrieved documents are emptied; otherwise only the retrieved documents change |
| `DeepRag.WebDocuments` | src/deep_rag.py:416-448 | one document per web result, in order |
| `DeepRag.WebSearchStep` | src/deep_rag.py:384-466 | no plan, an index out of range, or no web tool gives empty documents; failures of the search give empty documents; only a failing query rewrite raises; otherwise only the retrieved documents change |
| `DeepRag.RerankStep` | src/deep_rag.py:468-481 | the reranked documents are the first `min(n, top_n_rerank)` retrieved documents, in order; nothing else changes |
| `DeepRag.CompressStep` | src/deep_rag.py:483-503 | no plan or an index out of range gives an empty context; otherwise only the synthesised context changes |
| `DeepRag.ReflectStep` | src/deep_rag.py:505-543 | with a step in range: exactly one past step appended, the index up by one, history rebuilt with `get_past_context_str`, nothing else changed; out of range: the state is unchanged; it raises exactly when the reflector does |
| `DeepRag.FinalAnswerStep` | src/deep_rag.py:545-572 | sets only the final answer, from the synthesiser on the findings context; raises exactly when the synthesiser does |
| `DeepRag.RouteByTool` | src/deep_rag.py:574-589 | document search for tool `search_documents` or `search_10k`, web search for `search_web`, in range only; finalise otherwise |
| `DeepRag.RouteDeclaredTools` | src/deep_rag.py:574-589 | with a plan whose tools are declared, routing finalises exactly when the index is past the plan |
| `DeepRag.PolicyQuery` | src/deep_rag.py:594-632 | the agent is asked exactly when the index is below both the step budget and the plan's length; it is shown the budget capped at the plan's length |
| `DeepRag.Successor` | src/deep_rag.py:279-308 | the run ends only after `generate_final_answer` and never re-enters `plan`; `choose_next_tool` follows `plan` or a continuing `reflect`; `rerank` follows either retrieval node; `generate_final_answer` follows a finalising route or a stopping `reflect` |
| `DeepRag.ShouldContinue` | src/deep_rag.py:591-670 | "continue" only when the index is below the budget and the plan's length; then exactly when the agent raises or says continue; a "stop" is always honoured |
| `DeepRag.Run` | src/deep_rag.py:691-720 | the stream starts with the initial state (no plan, no past steps, index 0, the configured budget) |
| `DeepRag.InitialInv` | src/deep_rag.py:691-706 | the initial state satisfies the state invariant |
| `DeepRag.InvKept` | src/deep_rag.py:325-503 | a node that changes only the documents and the compressed context, and keeps at most `top_n_rerank` reranked documents, keeps the invariant |
| `DeepRag.PlanNodeInv` | src/deep_rag.py:312-323 | the plan node, run before any plan exists, establishes the invariant for the new plan |
| `DeepRag.ReflectInv` | src/deep_rag.py:505-543 | reflecting on a step in range keeps the invariant: the new past step is numbered with the next index and carries the plan's sub-question |
| `DeepRag.RunNodeInv` | src/deep_rag.py:312-572 | every node keeps the invariant: one past step per completed step, numbered from 1 with the plan's sub-questions, index within the plan, history in sync, at most `top_n_rerank` documents kept |
| `DeepRag.SuccessorAt` | src/deep_rag.py:261-310 | along every edge of the graph the next node's precondition holds and the remaining-work measure strictly decreases |
| `DeepRag.RunNodeFollows` | src/deep_rag.py:312-572 | a node keeps earlier past steps and moves the index by 0 or 1 |
| `DeepRag.StepGood` | src/deep_rag.py:261-572 | a node run where it may run keeps the invariant, extends the past steps, and hands the next node a state where it may run |
| `DeepRag.GoodTraceAll` | src/deep_rag.py:261-310 | a trace built snapshot by snapshot from good steps has every snapshot satisfying the invariant, each extending the one before |
| `DeepRag.RunGraphInv` | src/deep_rag.py:261-310 | for any graph whose nodes keep the invariant along its edges, every streamed snapshot satisfies it and extends the one before |
| `DeepRag.RunGraphWithinBudget` | src/deep_rag.py:261-310 | for any graph whose edges strictly decrease a positive cost, fuel at least the cost never hits the recursion limit |
| `DeepRag.NodesKeepAt` | src/deep_rag.py:261-310 | the Deep RAG graph's nodes and edges keep the invariant and each next node's entry condition |
| `DeepRag.NodesCostDecreases` | src/deep_rag.py:261-310 | along every edge of the Deep RAG graph the remaining-work measure is positive and strictly decreases |
| `DeepRag.ExecuteInv` | src/deep_rag.py:261-310 | every streamed snapshot satisfies the invariant, and each extends the previous one's past steps |
| `DeepRag.ExecuteWithinBudget` | src/deep_rag.py:261-310 | a budget at least the remaining-work measure never hits the recursion limit |
| `DeepRag.RunWithinBudget` | src/deep_rag.py:713-720 | with a budget of `5n + 3` node executions for a plan of `n` steps, the run never hits the recursion limit (a node may still raise) |
| `DeepRag.DefaultLimitSuffices` | src/deep_rag.py:713 | with the limit 200, any plan of at most 39 steps never hits the recursion limit |
| `DeepRag.RunInv` | src/deep_rag.py:691-720 | every snapshot of a run satisfies the invariant, and each extends the previous one |
| `DeepRag.RunOpensWithPlan` | src/deep_rag.py:312-323 | once the planner answers within the budget, the first streamed snapshot holds its plan, at step index 0, with no past steps and no final answer |
| `DeepRag.ReflectExtendsHistory` | src/deep_rag.py:534 | reflection extends a non-empty research history by a blank line and the new entry |
| `Answering.GenerateFinalFromContext` | src/deep_rag.py:757-780 | with no past steps, the fixed "No context available" error text; otherwise the synthesiser's answer on the findings context |
| `Answering.FirstAnswer` | src/deep_rag.py:721-724 | the loop breaks at the first snapshot with a final answer, or at none |
| `Answering.AnswerFromTrace` | src/deep_rag.py:708-755 | the stream loop and its exception handling compute exactly `AnswerSpec` |
| `Answering.RunGraphAnswerAtEnd` | src/deep_rag.py:261-310 | in any graph where only a node that ends the run writes the final answer, a run starting without one shows it in its last snapshot at most, and only when the run completed |
| `Answering.FinalAnswerOnlyAtEnd` | src/deep_rag.py:545-572 | only the last snapshot of a run can hold a final answer, and only when the run completed |
| `Answering.RunAnswersAtEnd` | src/deep_rag.py:691-720 | a whole run, its initial state included, shows a final answer only in its last snapshot, and only when it completed |
| `Answering.AnswerOnTrace` | src/deep_rag.py:721-755 | on a trace whose final answer can only be in the last snapshot of a completed run, a completed run's answer is returned and the recursion limit leads to recovery or `RuntimeError` |
| `Answering.AnswerOnRun` | src/deep_rag.py:725-755 | a completed run's final answer is returned; on the recursion limit the answer is recovered from the past steps when there are some and the synthesiser answers, and `RuntimeError` is raised otherwise |
| `Answering.AnswerWithinBudget` | src/deep_rag.py:713-742 | with a budget covering the plan, `answer` never raises its own `RuntimeError` |
| `Answering.Settings.constructor` | src/deep_rag.py:705 | the configuration holds the given step budget |
| `Answering.DeepRagSystem.constructor` | src/deep_rag.py:78-113 | a new system holds its oracles and configuration, with no graph compiled |
| `Answering.DeepRagSystem.Compile` | src/deep_rag.py:672-676 | each call is counted; the graph is built only on the first |
| `Answering.DeepRagSystem.Answer` | src/deep_rag.py:678-755 | compiles only if needed; the result is `AnswerSpec` of a run with the configured budget and the limit 200 |
| `Streaming.SubQuestions` | api/streaming.py:65 | the plan event lists every step's sub-question, in order |
| `Streaming.Sources` | api/streaming.py:83 | the `source` of the first three documents at most, `"unknown"` when missing |
| `Streaming.VisitSnapshot` | api/streaming.py:54-116 | `step_count` rises to the index when the index exceeds it; the plan flag sets on the first plan; the reflection branch is taken exactly when past steps outnumber `step_count` |
| `Streaming.PlanPart` | api/streaming.py:57-69 | at most one plan event, only for the first plan |
| `Streaming.RetrievalPart` | api/streaming.py:72-86 | at most one retrieval event, only when the index passed `step_count` and documents are present; it reports step index + 1 |
| `Streaming.ThreeParts` | api/streaming.py:54-116 | a plan part, a retrieval part and an answer part of at most one event each, in that order, give no terminal event, the plan event first, one retrieval event at most, and the answer event last |
| `Streaming.VisitEvents` | api/streaming.py:54-116 | one snapshot yields no terminal event, a plan event only first, at most one retrieval event, and an answer event only last and exactly when the loop breaks |
| `Streaming.HandleSnapshot` | api/streaming.py:54-116 | the loop body computes exactly the snapshot's events and new loop variables |
| `Streaming.ScanLoopStep` | api/streaming.py:44-139 | one turn of the generator loop keeps the events so far, followed by the scan of the rest, equal to the whole scan |
| `Streaming.StreamFromTrace` | api/streaming.py:44-139 | the generator yields exactly `StreamEvents` of the trace |
| `Streaming.ScanHasNoTerminal` | api/streaming.py:49-116 | the loop body never yields a completion or error event |
| `Streaming.StreamEndsOnce` | api/streaming.py:118-139 | the stream ends with exactly one terminal event (completion or error), and only at the end |
| `Streaming.ScanPlanOnce` | api/streaming.py:57-69 | at most one plan event, none once the flag is set |
| `Streaming.PlanEventAtMostOnce` | api/streaming.py:57-69 | a stream holds at most one plan event |
| `Streaming.ScanRetrievalSteps` | api/streaming.py:72-86 | `step_count` never decreases, and retrieval steps lie above its start and rise strictly |
| `Streaming.RetrievalStepsIncrease` | api/streaming.py:72-86 | retrieval events report strictly increasing steps |
| `Streaming.ScanAnswerLast` | api/streaming.py:103-116 | an answer event can only be last, and is last exactly when the loop broke at an answer |
| `Streaming.AnswerThenComplete` | api/streaming.py:103-127 | an answer event is immediately followed by the completion event, which ends the stream |
| `Streaming.ScanNeverCrashes` | api/streaming.py:89-100 | on snapshots with one past step per completed step, the reflection branch is never taken |
| `Streaming.StreamOnTrace` | api/streaming.py:12-139 | on a trace with one past step per completed step, the reflection `AttributeError` never occurs, and a completed trace ends with a completion event |
| `Streaming.ScanRunsOut` | api/streaming.py:54-116 | with one past step per completed step and no final answer anywhere, the loop visits every snapshot without breaking |
| `Streaming.ScanDeliversLast` | api/streaming.py:103-116 | when only the last snapshot holds a final answer, the loop breaks there and its last event is that answer, reporting the snapshot's index + 1 |
| `Streaming.ScanSkipsQuiet` | api/streaming.py:54-116 | a first snapshot that yields nothing and does not break leaves the events to the rest of the snapshots |
| `Streaming.ScanOpensWithVisit` | api/streaming.py:54-116 | the events of the loop open with those of its first snapshot |
| `Streaming.ScanOpensWithPlan` | api/streaming.py:57-69 | after an initial snapshot without a plan, a snapshot bringing plan `p` makes the stream open with `p`'s plan event: its step count and sub-questions |
| `Streaming.StreamDelivers` | api/streaming.py:103-139 | on a trace whose final answer can only be in the last snapshot of a completed run, a completed trace with an answer streams that answer just before the completion event; a failed trace ends with the error event of its failure |
| `Streaming.RunStreamable` | src/deep_rag.py:691-720 | every snapshot of a run has one past step per completed step, and its final answer only at the end |
| `Streaming.StreamOpensWithPlan` | api/streaming.py:57-69 | once the planner answers within the budget, the run's stream opens with the plan event carrying the plan's step count and sub-questions |
| `Streaming.StreamOnRun` | api/streaming.py:12-139 | on a run of the graph the reflection `AttributeError` never occurs; a completed run ends with a completion event, preceded by its final answer when it has one; a failed run ends with the error event of its failure; once the planner answers, the stream opens with the plan event |
| `Streaming.StreamDeepRagResponse` | api/streaming.py:12-53 | compiles only if needed; the events are those of a run with the configured budget and the limit 200 |
| `Service.RecompileRequested` | api/service.py:128 | `abs(max_steps - original_max) > 2` holds exactly when the override lies outside `[original - 2, original + 2]` (the same test at line 162) |
| `Service.Budget` | api/service.py:123-126 | the call's budget is the override when given, the configured one otherwise |
| `Service.DeepRagService.constructor` | api/service.py:26-31 | a new service is uninitialised, with no system, no configuration and no error |
| `Service.DeepRagService.ReadyIsInitialized` | api/service.py:91-93 | under the service invariant, `is_ready` (`IsReady`) holds exactly when the service is initialised, the flag `get_system_info` reports |
| `Service.DeepRagService.Info` | api/service.py:95-102 | `initialized`, `embeddings_loaded` and `vector_store_ready` mirror the flag; `error` mirrors the initialisation error |
| `Service.DeepRagService.Initialize` | api/service.py:33-89 | idempotent once initialised; success builds and compiles one system and clears the error; failure records the prefixed message, stays uninitialised and reports the exception |
| `Service.DeepRagService.Config` | api/service.py:182-187 | the configuration is loaded on first use and is the same object afterwards |
| `Service.DeepRagService.System` | api/service.py:175-180 | the system when ready, `ServiceNotReadyException` otherwise |
| `Service.DeepRagService.Answer` | api/service.py:104-137 | not ready: refused before the configuration is touched; ready: the answer of a run with the overridden budget, a recompile request only when the budget moves by more than 2, no graph rebuilt, and the configured budget restored |
| `Service.DeepRagService.StreamAnswer` | api/service.py:139-173 | the same refusal, override, recompile request and restore around the streamed events |
| `Service.Registry.constructor` | api/service.py:190 | no service exists yet |
| `Service.Registry.GetService` | api/service.py:190-199 | the first call creates an uninitialised service; every call returns that same instance |
| `Segmentation.LookaheadEnd` | src/utils.py:52 | the look-ahead covers lines `i+1` up to `min(i+5, len(lines))` |
| `Segmentation.PotentialHeader` | src/utils.py:39-47 | a potential header is exactly a non-blank line shorter than 100 characters, starting upper-case or with a digit, that holds an upper-case letter (the `isupper()` alternative adds nothing) |
| `Segmentation.Accepted` | src/utils.py:43-58 | an accepted line is non-blank with an upper-case letter, and one after the first line needs a line after it for the look-ahead to confirm |
| `Segmentation.HeadersUpTo` | src/utils.py:37-58 | every listed header is an accepted line, titled by the stripped line, in increasing line order |
| `Segmentation.HeadersComplete` | src/utils.py:37-58 | every accepted line is listed |
| `Segmentation.NextContent` | src/utils.py:50-55 | the look-ahead finds content exactly when one of the next four lines is non-blank and does not start upper-case or is longer than 50 |
| `Segmentation.FindHeaders` | src/utils.py:34-58 | the header loop lists exactly the accepted headers |
| `Segmentation.HeaderSectionsUpTo` | src/utils.py:62-67 | the first header always gives a section with its stripped body; later sections with empty bodies are dropped |
| `Segmentation.CollectHeaderSections` | src/utils.py:62-67 | the section loop computes exactly the header sections |
| `Segmentation.CollectParagraphSections` | src/utils.py:69-88 | the paragraph loop computes exactly the fallback sections |
| `Segmentation.FlushedGood` | src/utils.py:87-88 | flushing keeps every section well formed |
| `Segmentation.FallbackGood` | src/utils.py:74-85 | every fallback section has a non-blank body, titled "Document Content" or by a short paragraph starting upper-case |
| `Segmentation.FallbackSectionsGood` | src/utils.py:69-88 | every fallback section is well formed |
| `Segmentation.Sections` | src/utils.py:60-91 | sectioning never yields an empty list |
| `Segmentation.SplitIntoSections` | src/utils.py:33-91 | the whole sectioning computes exactly `Sections` |
| `Segmentation.HeaderModeStartsAtFirstHeader` | src/utils.py:62-67 | in header mode the first section is the first header with its body |
| `Segmentation.NoSectionsFallback` | src/utils.py:90-91 | no header and no non-blank paragraph gives the single section "Full Document" with the raw text |
| `Segmentation.FallbackUntouched` | src/utils.py:74-77 | blank paragraphs leave the fallback state untouched |
| `Segmentation.CleanTitle` | src/utils.py:101 | a cleaned title has no newline and at most 200 characters |
| `Segmentation.PieceChunks` | src/utils.py:117-129 | one chunk per splitter piece |
| `Segmentation.ChunkSection` | src/utils.py:97-129 | the per-section loop appends exactly that section's chunks |
| `Segmentation.ChunkSections` | src/utils.py:97-129 | the outer loop produces exactly the chunks of all sections |
| `Segmentation.ProcessDocumentsWithMetadata` | src/utils.py:9-131 | the function computes exactly `Process` |
| `Segmentation.MetadataTagged` | src/utils.py:105-129 | a chunk's metadata carries the section, the source as `source_doc` and `file_name`, and the id |
| `Segmentation.PieceChunksTagged` | src/utils.py:117-129 | each piece chunk is tagged with the next fresh id |
| `Segmentation.SectionChunksTagged` | src/utils.py:97-129 | each chunk of a section is tagged |
| `Segmentation.TaggedConcat` | src/utils.py:94-129 | tagged chunk lists concatenate, with their ids drawn in sequence |
| `Segmentation.ChunksTagged` | src/utils.py:94-129 | every chunk of the first `n` sections is tagged |
| `Segmentation.ProcessedChunksTagged` | src/utils.py:95-129 | every chunk carries a title without newlines of at most 200 characters, the first document's `file_name` (or "unknown") as `source_doc` and `file_name`, and its own fresh id; ids are distinct when the id supply is |
| `Segmentation.TaggedHaveIds` | src/utils.py:112-118 | tagged chunks all carry ids, distinct when the id supply is |
| `Segmentation.EmptyInputNoChunks` | src/utils.py:90-99 | no input documents give no chunks |

## Left out

- Language-model agents, prompts, FAISS, BM25 scoring, embeddings, Tavily and the text splitter are foreign. They are oracles in `Env` or parameters.
- `uuid4` is foreign. It is a fresh-id supply indexed by draw count.
- Logging, console printing, timing and event timestamps are side effects. Event content strings and `metadata` dictionaries are also left out.
- Ingestion, embedding generation, the document loader, `get_config` and the HTTP layer are I/O. `DeepRAGSystem`'s set-up of agents, vector store and web tool is not part of this model: `Env` stands for its outcome.
- Concurrency is left out. That includes requests sharing the configuration dictionary that the service mutates; the model has one sequential caller.
- Python float arithmetic is left out. RRF scores are exact reals, so float rounding ties are not modelled.
- `Retrieval.Bm25SearchSpec`: `np.argsort` uses an unstable sort by default, so the order among equal BM25 scores is unspecified in the code. The model fixes one order (the reversed stable order, later position first). The lemma states only what holds for every tie order.
- The web results' `score` field is dropped. No core logic reads it.
- The text helpers work over ASCII. Unicode `isupper`, `isdigit` and `strip` on non-ASCII characters are not modelled.
- Configuration values are naturals. A negative `top_n_rerank` (Python's negative slicing) is not modelled.
- Node exception messages are assumed not to contain "recursion limit". `answer` tests that text to tell the engine's error from a node's error.
- A FAISS or BM25 failure inside `retrieval_node` (src/deep_rag.py:325-385) is not modelled, because the retrieval backends are total functions in `Env`. In the code such an exception is not caught there: it ends the run as a node failure, which `answer` propagates and the stream reports as an error event. The model reaches that path only through the agents that can raise.
- LangGraph's exact recursion counting (its off-by-one against the limit) is left out. The limit is a fuel counted in node executions.
- `DeepRag.Execute`: the engine receives the limit through a keyword named `stream_config` (src/deep_rag.py:718, api/streaming.py:51). Whether the engine honours that keyword or uses its own default is engine behaviour. The model takes the limit as a parameter, and `RecursionLimitDefault` is 200.
- `Service.DeepRagService.StreamAnswer`: `stream_answer` is a generator, so its not-ready exception is raised on first iteration. The model reports it at call time.
- `Service.DeepRagService.Answer`: the restore in `finally` also runs when the answer raises. The model has no exceptions out of `answer` (`Propagated` is a value), so the restore is stated only on that path.
- `Segmentation.HeaderSectionsUpTo`: states the first section and the non-emptiness of later ones, not that each later section is the body between consecutive headers (that follows from its definition, which the loop is proved equal to).

Behaviour of the code that the model keeps as written:

- The step budget is checked only after the first reflection, so a budget of 0 or 1 still runs one full step (`DeepRag.ShouldContinue`, src/deep_rag.py:598).
- `final_answer_node` never returns an error value. It only raises when the synthesiser does.
- The reflection branch of the stream would read `.summary` from a dictionary and raise. The model keeps it as an error event (`ReflectionAttributeError`), and `Streaming.StreamOnRun` proves that a run never reaches it.
- The service's recompile calls `compile`, which does nothing once a graph exists. `Service.DeepRagService.Answer` counts the request, and no graph is rebuilt.
- The `str(i)` id fallback of `hybrid_search` uses positions in the concatenated list for the dict but positions in each list for the ranking. `Retrieval.Fuse` returns `None` for the resulting `KeyError`, and `Retrieval.MissingIdRaisesKeyError` exhibits it.
