/**
 * The hybrid retriever: BM25 keyword ranking, section-filtered vector search,
 * and Reciprocal Rank Fusion of the two. BM25 scoring and FAISS similarity
 * search are oracles: a scorer giving each corpus document's BM25 score for a
 * tokenised query, and a similarity search over a chosen index.
 */
module Retrieval {
  import opened Wrappers
  import opened Text
  import opened GraphNodes
  import Ranking

  // ---------------------------------------------------------------------
  // Document keys and the id map
  // ---------------------------------------------------------------------

  /** `doc.metadata.get("id", str(i))` */
  function KeyAt(d: Document, i: nat): string {
    MetaGet(d, "id", NatToString(i))
  }

  /** The keys of a list of documents, each falling back to its own position. */
  function Keys(docs: seq<Document>): (r: seq<string>)
    ensures |r| == |docs|
    ensures forall i :: 0 <= i < |docs| ==> r[i] == KeyAt(docs[i], i)
  {
    seq(|docs|, i requires 0 <= i < |docs| => KeyAt(docs[i], i))
  }

  predicate HasId(d: Document) {
    "id" in d.metadata
  }

  /** No later entry has the key of entry `i`. */
  predicate LastOccurrence(keys: seq<string>, i: nat)
    requires i < |keys|
  {
    forall j :: i < j < |keys| ==> keys[j] != keys[i]
  }

  /** A dict built from `(keys[i], docs[i])` pairs in order: later pairs overwrite earlier ones. */
  function LastByKey(keys: seq<string>, docs: seq<Document>): (m: map<string, Document>)
    requires |keys| == |docs|
    ensures forall key :: key in m <==> key in keys
  {
    if keys == [] then map[]
    else
      var n := |keys| - 1;
      assert forall key :: key in keys <==> key in keys[..n] || key == keys[n];
      LastByKey(keys[..n], docs[..n])[keys[n] := docs[n]]
  }

  /** The last pair with a key is the one the dict keeps. */
  lemma {:induction false} LastByKeyLast(keys: seq<string>, docs: seq<Document>, i: nat)
    requires |keys| == |docs| && i < |keys| && LastOccurrence(keys, i)
    ensures LastByKey(keys, docs)[keys[i]] == docs[i]
  {
    var n := |keys| - 1;
    if i < n {
      assert keys[i] != keys[n];
      assert LastOccurrence(keys[..n], i);
      LastByKeyLast(keys[..n], docs[..n], i);
    }
  }

  /** Every entry of the dict is some pair of the input. */
  lemma {:induction false} LastByKeyFromPairs(keys: seq<string>, docs: seq<Document>, key: string)
    requires |keys| == |docs| && key in LastByKey(keys, docs)
    ensures exists i :: 0 <= i < |keys| && keys[i] == key && LastByKey(keys, docs)[key] == docs[i]
  {
    var n := |keys| - 1;
    if keys[n] != key {
      LastByKeyFromPairs(keys[..n], docs[..n], key);
      var i :| 0 <= i < n && keys[..n][i] == key && LastByKey(keys[..n], docs[..n])[key] == docs[..n][i];
      assert keys[i] == key;
    }
  }

  /** Each last pair is kept, and every value of the dict is one of the documents. */
  lemma LastByKeyValues(keys: seq<string>, docs: seq<Document>)
    requires |keys| == |docs|
    ensures forall i :: 0 <= i < |keys| && LastOccurrence(keys, i) ==> LastByKey(keys, docs)[keys[i]] == docs[i]
    ensures forall key :: key in LastByKey(keys, docs) ==> LastByKey(keys, docs)[key] in docs
  {
    forall i | 0 <= i < |keys| && LastOccurrence(keys, i)
      ensures LastByKey(keys, docs)[keys[i]] == docs[i]
    {
      LastByKeyLast(keys, docs, i);
    }
    forall key | key in LastByKey(keys, docs)
      ensures LastByKey(keys, docs)[key] in docs
    {
      LastByKeyFromPairs(keys, docs, key);
    }
  }

  // ---------------------------------------------------------------------
  // The retriever built once per corpus
  // ---------------------------------------------------------------------

  datatype HybridRetriever = HybridRetriever(
    documents: seq<Document>,
    corpus: seq<seq<string>>,  // tokenised corpus handed to the BM25 index
    docIds: seq<string>,
    docMap: map<string, Document>)

  /** Every id of the id list has a document in the map. */
  predicate Valid(r: HybridRetriever) {
    |r.docIds| == |r.documents| && forall i :: 0 <= i < |r.docIds| ==> r.docIds[i] in r.docMap
  }

  /** `HybridRetriever.__init__`: tokenise the corpus on single spaces and index the documents by id. */
  function Build(documents: seq<Document>): (r: HybridRetriever)
    ensures Valid(r) && r.documents == documents
    ensures |r.corpus| == |documents|
    ensures forall i :: 0 <= i < |documents| && LastOccurrence(r.docIds, i) ==> r.docMap[r.docIds[i]] == documents[i]
    ensures forall id :: id in r.docMap ==> r.docMap[id] in documents
  {
    var ids := Keys(documents);
    LastByKeyValues(ids, documents);
    HybridRetriever(
      documents,
      seq(|documents|, i requires 0 <= i < |documents| => Split(documents[i].content, " ")),
      ids,
      LastByKey(ids, documents))
  }

  /** Tokenising on single spaces loses nothing: each document's tokens join back to its content. */
  lemma BuildCorpusLossless(documents: seq<Document>, i: nat)
    requires i < |documents|
    ensures Join(Build(documents).corpus[i], " ") == documents[i].content
  {
    JoinSplit(documents[i].content, " ");
  }

  // ---------------------------------------------------------------------
  // Vector search with a section filter
  // ---------------------------------------------------------------------

  /** Which index a similarity search runs over: the full store, or one built from a section's documents. */
  datatype Scope = WholeIndex | SectionIndex(docs: seq<Document>)

  /** FAISS `similarity_search(query, k)` over a scope. */
  type Similarity = (Scope, string, nat) -> seq<Document>

  /** The filter is used only when it is a non-empty string that does not contain `"Unknown"`. */
  predicate FilterApplies(filter: Option<string>) {
    filter.Some? && filter.value != "" && !Contains(filter.value, "Unknown")
  }

  function InSection(docs: seq<Document>, section: string): (r: seq<Document>)
    ensures forall d :: d in r <==> d in docs && MetaGet(d, "section", "") == section
  {
    if docs == [] then []
    else
      var rest := InSection(docs[1..], section);
      assert forall d :: d in docs <==> d == docs[0] || d in docs[1..];
      if MetaGet(docs[0], "section", "") == section then [docs[0]] + rest else rest
  }

  /**
   * The index `vector_search` searches: a section index of exactly the documents
   * whose `section` equals the filter, when the filter applies and that set is
   * non-empty; the whole store otherwise.
   */
  function VectorScope(documents: seq<Document>, filter: Option<string>): (s: Scope)
    ensures s.SectionIndex? <==>
      FilterApplies(filter) && exists d :: d in documents && MetaGet(d, "section", "") == filter.value
    ensures s.SectionIndex? ==>
      s.docs != [] && (forall d :: d in s.docs <==> d in documents && MetaGet(d, "section", "") == filter.value)
  {
    if FilterApplies(filter) then
      var filtered := InSection(documents, filter.value);
      assert filtered != [] ==> filtered[0] in filtered;
      if filtered != [] then SectionIndex(filtered) else WholeIndex
    else WholeIndex
  }

  /**
   * `vector_search`: the section index of the documents in the filter's section
   * when the filter applies and some document is in that section, the whole
   * store otherwise.
   */
  function VectorSearch(r: HybridRetriever, query: string, filter: Option<string>, k: nat, similar: Similarity): (out: seq<Document>)
    ensures !FilterApplies(filter) || (forall d :: d in r.documents ==> MetaGet(d, "section", "") != filter.value) ==>
      out == similar(WholeIndex, query, k)
    ensures FilterApplies(filter) && (exists d :: d in r.documents && MetaGet(d, "section", "") == filter.value) ==>
      out == similar(SectionIndex(InSection(r.documents, filter.value)), query, k)
  {
    similar(VectorScope(r.documents, filter), query, k)
  }

  // ---------------------------------------------------------------------
  // BM25 search
  // ---------------------------------------------------------------------

  /** `BM25Okapi.get_scores(tokens)[i]`: the BM25 score of corpus document `i`. */
  type Bm25Scorer = (seq<string>, nat) -> real

  function Bm25Scores(r: HybridRetriever, query: string, bm25: Bm25Scorer): (sc: seq<real>)
    ensures |sc| == |r.documents|
  {
    var tokens := Split(query, " ");
    seq(|r.documents|, i requires 0 <= i < |r.documents| => bm25(tokens, i))
  }

  /** `np.argsort(scores)[::-1][:k]`: the corpus positions of the `k` best scores. */
  function Bm25Ranking(r: HybridRetriever, query: string, k: nat, bm25: Bm25Scorer): (idx: seq<nat>)
    ensures Ranking.InRange(idx, |r.documents|)
  {
    Ranking.TopK(Bm25Scores(r, query, bm25), false, k)
  }

  /** `bm25_search`: the documents at the `k` best-scoring positions, looked up through the id map. */
  function Bm25Search(r: HybridRetriever, query: string, k: nat, bm25: Bm25Scorer): (out: seq<Document>)
    requires Valid(r)
    ensures |out| == if k <= |r.documents| then k else |r.documents|
    ensures (forall id :: id in r.docMap ==> r.docMap[id] in r.documents) ==> forall d :: d in out ==> d in r.documents
  {
    Ranking.TopKSpec(Bm25Scores(r, query, bm25), false, k);
    var idx := Bm25Ranking(r, query, k, bm25);
    seq(|idx|, j requires 0 <= j < |idx| => r.docMap[r.docIds[idx[j]]])
  }

  /**
   * On a retriever whose id map finds every corpus document under its own id,
   * `bm25_search` returns `min(k, n)` distinct corpus documents, best BM25 score
   * first, and no document left out scores higher than one returned.
   */
  lemma Bm25SearchRanked(r: HybridRetriever, query: string, k: nat, bm25: Bm25Scorer)
    requires Valid(r)
    requires forall i :: 0 <= i < |r.documents| ==> r.docMap[r.docIds[i]] == r.documents[i]
    ensures var out := Bm25Search(r, query, k, bm25);
      var idx := Bm25Ranking(r, query, k, bm25);
      var sc := Bm25Scores(r, query, bm25);
      && |out| == (if k <= |r.documents| then k else |r.documents|)
      && (forall j :: 0 <= j < |out| ==> out[j] == r.documents[idx[j]])
      && (forall a, b :: 0 <= a < b < |out| ==> idx[a] != idx[b] && sc[idx[a]] >= sc[idx[b]])
      && (forall a, i :: 0 <= a < |out| && 0 <= i < |r.documents| && i !in idx ==> sc[i] <= sc[idx[a]])
  {
    Ranking.TopKSpec(Bm25Scores(r, query, bm25), false, k);
  }

  /** The same on a retriever built from documents with distinct ids. */
  lemma Bm25SearchSpec(documents: seq<Document>, query: string, k: nat, bm25: Bm25Scorer)
    requires forall i :: 0 <= i < |documents| ==> LastOccurrence(Keys(documents), i)
    ensures var r := Build(documents);
      var out := Bm25Search(r, query, k, bm25);
      var idx := Bm25Ranking(r, query, k, bm25);
      var sc := Bm25Scores(r, query, bm25);
      && |out| == (if k <= |documents| then k else |documents|)
      && (forall j :: 0 <= j < |out| ==> out[j] == documents[idx[j]])
      && (forall a, b :: 0 <= a < b < |out| ==> idx[a] != idx[b] && sc[idx[a]] >= sc[idx[b]])
      && (forall a, i :: 0 <= a < |out| && 0 <= i < |documents| && i !in idx ==> sc[i] <= sc[idx[a]])
  {
    var r := Build(documents);
    assert r.docIds == Keys(documents);
    forall i | 0 <= i < |documents| ensures r.docMap[r.docIds[i]] == documents[i] {
      assert LastOccurrence(r.docIds, i);
    }
    Bm25SearchRanked(r, query, k, bm25);
  }

  // ---------------------------------------------------------------------
  // Reciprocal Rank Fusion
  // ---------------------------------------------------------------------

  /** The keys in order of first appearance: the insertion order of the score dict. */
  function FirstSeen(keys: seq<string>): (r: seq<string>)
    ensures forall key :: key in r <==> key in keys
    ensures |r| <= |keys|
  {
    if keys == [] then []
    else
      var n := |keys| - 1;
      var p := FirstSeen(keys[..n]);
      assert forall key :: key in keys <==> key in keys[..n] || key == keys[n];
      if keys[n] in p then p else p + [keys[n]]
  }

  /** Each key is listed once. */
  lemma {:induction false} FirstSeenDistinct(keys: seq<string>)
    ensures forall a, b :: 0 <= a < b < |FirstSeen(keys)| ==> FirstSeen(keys)[a] != FirstSeen(keys)[b]
  {
    if keys != [] {
      FirstSeenDistinct(keys[..|keys| - 1]);
    }
  }

  /** The RRF contribution of one ranked list to `key`: the sum of `1/(i + 61)` over its positions `i`. */
  function RrfSum(keys: seq<string>, key: string): real {
    if keys == [] then 0.0
    else
      var n := |keys| - 1;
      RrfSum(keys[..n], key) + (if keys[n] == key then 1.0 / ((n + 61) as real) else 0.0)
  }

  lemma {:induction false} RrfSumAbsent(keys: seq<string>, key: string)
    requires key !in keys
    ensures RrfSum(keys, key) == 0.0
  {
    if keys != [] {
      RrfSumAbsent(keys[..|keys| - 1], key);
    }
  }

  /** A key at exactly one position `p` of a list receives `1/(p + 61)` from it. */
  lemma {:induction false} RrfSumSingle(keys: seq<string>, key: string, p: nat)
    requires p < |keys| && keys[p] == key
    requires forall i :: 0 <= i < |keys| && i != p ==> keys[i] != key
    ensures RrfSum(keys, key) == 1.0 / ((p + 61) as real)
  {
    var n := |keys| - 1;
    if p == n {
      RrfSumAbsent(keys[..n], key);
    } else {
      RrfSumSingle(keys[..n], key, p);
    }
  }

  /** The fused score of a key: its contributions from the BM25 list and the semantic list. */
  function RrfScore(bm: seq<Document>, sem: seq<Document>, key: string): real {
    RrfSum(Keys(bm), key) + RrfSum(Keys(sem), key)
  }

  /** The distinct keys of both lists, BM25 list first, in order of first appearance. */
  function FusionCandidates(bm: seq<Document>, sem: seq<Document>): seq<string> {
    FirstSeen(Keys(bm) + Keys(sem))
  }

  function FusionScores(bm: seq<Document>, sem: seq<Document>): (sc: seq<real>)
    ensures |sc| == |FusionCandidates(bm, sem)|
  {
    var c := FusionCandidates(bm, sem);
    seq(|c|, i requires 0 <= i < |c| => RrfScore(bm, sem, c[i]))
  }

  /** The candidates sorted by descending fused score; a stable sort keeps ties in insertion order. */
  function FusionOrder(bm: seq<Document>, sem: seq<Document>): (o: seq<string>)
    ensures |o| == |FusionCandidates(bm, sem)|
  {
    Ranking.RankIsSortedPermutation(FusionScores(bm, sem), true);
    Ranking.Arrange(FusionCandidates(bm, sem), Ranking.Rank(FusionScores(bm, sem), true))
  }

  /**
   * The fused result: the documents of the first `k` keys of the fusion order,
   * looked up in the dict built over the concatenated lists. `None` stands for
   * the `KeyError` raised when a key has no entry in that dict.
   */
  function Fuse(bm: seq<Document>, sem: seq<Document>, k: nat): (r: Option<seq<Document>>)
    ensures r.Some? ==> |r.value| == if k <= |FusionCandidates(bm, sem)| then k else |FusionCandidates(bm, sem)|
    ensures r.Some? ==> forall j :: 0 <= j < |r.value| ==> r.value[j] in bm + sem
  {
    var o := FusionOrder(bm, sem);
    var top := o[..if k <= |o| then k else |o|];
    var all := LastByKey(Keys(bm + sem), bm + sem);
    LastByKeyValues(Keys(bm + sem), bm + sem);
    if forall t :: t in top ==> t in all then Some(LookUp(all, top)) else None
  }

  /** `[all[t] for t in top]`. */
  function LookUp(all: map<string, Document>, top: seq<string>): (out: seq<Document>)
    requires forall t :: t in top ==> t in all
    ensures |out| == |top|
    ensures forall j :: 0 <= j < |top| ==> out[j] == all[top[j]]
  {
    seq(|top|, j requires 0 <= j < |top| => all[top[j]])
  }

  /** Position of the first occurrence of `x`. */
  function IndexOf(s: seq<string>, x: string): (i: nat)
    requires x in s
    ensures i < |s| && s[i] == x
    ensures forall j :: 0 <= j < i ==> s[j] != x
  {
    if s[0] == x then 0 else 1 + IndexOf(s[1..], x)
  }

  /** Entry `j` of the fusion order is the candidate at ranking position `j`. */
  lemma FusionOrderAt(bm: seq<Document>, sem: seq<Document>, j: nat)
    requires j < |FusionOrder(bm, sem)|
    ensures var c := FusionCandidates(bm, sem); var rank := Ranking.Rank(FusionScores(bm, sem), true);
      && rank[j] < |c|
      && FusionOrder(bm, sem)[j] == c[rank[j]]
      && IndexOf(c, FusionOrder(bm, sem)[j]) == rank[j]
      && RrfScore(bm, sem, FusionOrder(bm, sem)[j]) == FusionScores(bm, sem)[rank[j]]
  {
    FirstSeenDistinct(Keys(bm) + Keys(sem));
    Ranking.RankIsSortedPermutation(FusionScores(bm, sem), true);
  }

  /** The fusion order lists every candidate exactly once. */
  lemma FusionOrderPermutation(bm: seq<Document>, sem: seq<Document>)
    ensures forall key :: key in FusionOrder(bm, sem) <==> key in FusionCandidates(bm, sem)
    ensures forall a, b :: 0 <= a < b < |FusionOrder(bm, sem)| ==> FusionOrder(bm, sem)[a] != FusionOrder(bm, sem)[b]
  {
    FirstSeenDistinct(Keys(bm) + Keys(sem));
    Ranking.ArrangePermutation(FusionCandidates(bm, sem), FusionScores(bm, sem), true);
  }

  /**
   * The fusion order is by non-increasing fused score, and equal scores keep the
   * order in which the keys were first inserted.
   */
  lemma FusionOrderSorted(bm: seq<Document>, sem: seq<Document>, a: nat, b: nat)
    requires a < b < |FusionOrder(bm, sem)|
    ensures var o := FusionOrder(bm, sem);
      && RrfScore(bm, sem, o[a]) >= RrfScore(bm, sem, o[b])
      && (RrfScore(bm, sem, o[a]) == RrfScore(bm, sem, o[b]) ==>
            IndexOf(FusionCandidates(bm, sem), o[a]) < IndexOf(FusionCandidates(bm, sem), o[b]))
  {
    var sc := FusionScores(bm, sem);
    var rank := Ranking.Rank(sc, true);
    Ranking.RankIsSortedPermutation(sc, true);
    FusionOrderAt(bm, sem, a);
    FusionOrderAt(bm, sem, b);
    assert Ranking.Before(sc, true, rank[a], rank[b]);
  }

  predicate AllHaveIds(docs: seq<Document>) {
    forall i :: 0 <= i < |docs| ==> HasId(docs[i])
  }

  /**
   * When every document of both lists carries an id, fusion succeeds and returns
   * exactly `min(k, n)` documents for `n` distinct ids, each taken from one of the
   * two lists, with no id twice, in non-increasing fused score, and no id left out
   * scores higher than one kept.
   */
  lemma FuseSpec(bm: seq<Document>, sem: seq<Document>, k: nat)
    requires AllHaveIds(bm) && AllHaveIds(sem)
    ensures Fuse(bm, sem, k).Some?
    ensures var out := Fuse(bm, sem, k).value;
      && |out| == (if k <= |FusionCandidates(bm, sem)| then k else |FusionCandidates(bm, sem)|)
      && (forall j :: 0 <= j < |out| ==> out[j] in bm + sem && HasId(out[j]))
      && (forall a, b :: 0 <= a < b < |out| ==> out[a].metadata["id"] != out[b].metadata["id"])
      && (forall a, b :: 0 <= a < b < |out| ==>
            RrfScore(bm, sem, out[a].metadata["id"]) >= RrfScore(bm, sem, out[b].metadata["id"]))
      && (forall a, t :: 0 <= a < |out| && t in FusionCandidates(bm, sem) && Omitted(out, t) ==>
            RrfScore(bm, sem, t) <= RrfScore(bm, sem, out[a].metadata["id"]))
  {
    FuseEntries(bm, sem, k);
    FusionOrderPermutation(bm, sem);
    FuseSorted(bm, sem, k);
    FuseOutranksRest(bm, sem, k);
  }

  /** With every document identified, the fused output is in non-increasing fused score. */
  lemma FuseSorted(bm: seq<Document>, sem: seq<Document>, k: nat)
    requires AllHaveIds(bm) && AllHaveIds(sem)
    ensures Fuse(bm, sem, k).Some?
    ensures var out := Fuse(bm, sem, k).value;
      forall a, b :: 0 <= a < b < |out| && HasId(out[a]) && HasId(out[b]) ==>
        RrfScore(bm, sem, out[a].metadata["id"]) >= RrfScore(bm, sem, out[b].metadata["id"])
  {
    FuseEntries(bm, sem, k);
    var out := Fuse(bm, sem, k).value;
    forall a, b | 0 <= a < b < |out| && HasId(out[a]) && HasId(out[b])
      ensures RrfScore(bm, sem, out[a].metadata["id"]) >= RrfScore(bm, sem, out[b].metadata["id"])
    {
      FusionOrderSorted(bm, sem, a, b);
    }
  }

  /** No output document carries the id `t`. */
  predicate Omitted(out: seq<Document>, t: string) {
    forall j :: 0 <= j < |out| ==> !(HasId(out[j]) && out[j].metadata["id"] == t)
  }

  /** With every document identified, no candidate id left out of the output scores higher than a kept one. */
  lemma FuseOutranksRest(bm: seq<Document>, sem: seq<Document>, k: nat)
    requires AllHaveIds(bm) && AllHaveIds(sem)
    ensures Fuse(bm, sem, k).Some?
    ensures var out := Fuse(bm, sem, k).value;
      forall a, t :: 0 <= a < |out| && HasId(out[a]) && t in FusionCandidates(bm, sem) && Omitted(out, t) ==>
        RrfScore(bm, sem, t) <= RrfScore(bm, sem, out[a].metadata["id"])
  {
    FuseEntries(bm, sem, k);
    FusionOrderPermutation(bm, sem);
    var o := FusionOrder(bm, sem);
    var out := Fuse(bm, sem, k).value;
    forall a, t | 0 <= a < |out| && HasId(out[a]) && t in FusionCandidates(bm, sem) && Omitted(out, t)
      ensures RrfScore(bm, sem, t) <= RrfScore(bm, sem, out[a].metadata["id"])
    {
      forall i | 0 <= i < |out| ensures o[i] != t {
        assert out[i].metadata["id"] == o[i];
      }
      var j :| 0 <= j < |o| && o[j] == t;
      assert a < j;
      FusionOrderSorted(bm, sem, a, j);
    }
  }

  /** With every document identified, output entry `j` is the document of the `j`-th key of the fusion order. */
  lemma FuseEntries(bm: seq<Document>, sem: seq<Document>, k: nat)
    requires AllHaveIds(bm) && AllHaveIds(sem)
    ensures Fuse(bm, sem, k).Some?
    ensures var out := Fuse(bm, sem, k).value;
      && |out| == (if k <= |FusionOrder(bm, sem)| then k else |FusionOrder(bm, sem)|)
      && forall j :: 0 <= j < |out| ==>
           out[j] in bm + sem && HasId(out[j]) && out[j].metadata["id"] == FusionOrder(bm, sem)[j]
  {
    var o := FusionOrder(bm, sem);
    FusionOrderPermutation(bm, sem);
    var top := o[..if k <= |o| then k else |o|];
    var all := LastByKey(Keys(bm + sem), bm + sem);
    forall t | t in top ensures t in all {
      IdentifiedDict(bm, sem, t);
    }
    var out := seq(|top|, j requires 0 <= j < |top| => all[top[j]]);
    assert Fuse(bm, sem, k) == Some(out);
    forall j | 0 <= j < |out| ensures out[j] in bm + sem && HasId(out[j]) && out[j].metadata["id"] == o[j] {
      var t := top[j];
      assert t == o[j] && t in FusionCandidates(bm, sem);
      IdentifiedDict(bm, sem, t);
      assert out[j] == all[t];
    }
  }

  /**
   * With every document identified, each key is the document's id, whatever its
   * position, so the keys of a concatenation concatenate.
   */
  lemma KeysConcat(bm: seq<Document>, sem: seq<Document>)
    requires AllHaveIds(bm) && AllHaveIds(sem)
    ensures AllHaveIds(bm + sem)
    ensures forall i :: 0 <= i < |bm + sem| ==> Keys(bm + sem)[i] == (bm + sem)[i].metadata["id"]
    ensures Keys(bm + sem) == Keys(bm) + Keys(sem)
  {
    var docs := bm + sem;
    assert AllHaveIds(docs);
    assert Keys(docs) == Keys(bm) + Keys(sem);
  }

  /** With every document identified, the document dict maps each listed id to a document carrying it. */
  lemma IdentifiedDict(bm: seq<Document>, sem: seq<Document>, t: string)
    requires AllHaveIds(bm) && AllHaveIds(sem)
    requires t in FusionCandidates(bm, sem)
    ensures var all := LastByKey(Keys(bm + sem), bm + sem);
      t in all && all[t] in bm + sem && HasId(all[t]) && all[t].metadata["id"] == t
  {
    var docs := bm + sem;
    var keys := Keys(docs);
    KeysConcat(bm, sem);
    assert t in keys;
    var all := LastByKey(keys, docs);
    LastByKeyFromPairs(keys, docs, t);
    var i :| 0 <= i < |keys| && keys[i] == t && all[t] == docs[i];
    assert HasId(docs[i]) && docs[i].metadata["id"] == t;
  }

  /** A key ranked first in both lists scores 2/61; ranked first in only one, 1/61. */
  lemma RrfRankZero(bm: seq<Document>, sem: seq<Document>, key: string)
    requires bm != [] && Keys(bm)[0] == key
    requires forall i :: 0 < i < |bm| ==> Keys(bm)[i] != key
    ensures sem != [] && Keys(sem)[0] == key && (forall i :: 0 < i < |sem| ==> Keys(sem)[i] != key) ==>
      RrfScore(bm, sem, key) == 2.0 / 61.0
    ensures key !in Keys(sem) ==> RrfScore(bm, sem, key) == 1.0 / 61.0
  {
    RrfSumSingle(Keys(bm), key, 0);
    if sem != [] && Keys(sem)[0] == key && (forall i :: 0 < i < |sem| ==> Keys(sem)[i] != key) {
      RrfSumSingle(Keys(sem), key, 0);
    }
    if key !in Keys(sem) {
      RrfSumAbsent(Keys(sem), key);
    }
  }

  lemma ReciprocalAntitone(x: nat, y: nat)
    requires 0 < x <= y
    ensures 1.0 / (y as real) <= 1.0 / (x as real)
    ensures 1.0 / (y as real) < 1.0 / (x as real) + 1.0 / (x as real)
  {
    var rx := x as real;
    var ry := y as real;
    assert (1.0 / rx) * rx == 1.0;
    assert (1.0 / ry) * ry == 1.0;
    assert 1.0 / rx - 1.0 / ry == (ry - rx) / (rx * ry);
  }

  /** `key` occurs in `keys` exactly once, at position `p`. */
  predicate OnlyAt(keys: seq<string>, key: string, p: nat) {
    p < |keys| && keys[p] == key && forall i :: 0 <= i < |keys| && i != p ==> keys[i] != key
  }

  /** Ranked `r` in two lists outscores ranked no better than `r` in one list only. */
  lemma DoubleListedScoresHigher(x: seq<string>, y: seq<string>, a: string, r: nat, b: string, r': nat)
    requires OnlyAt(x, a, r) && OnlyAt(y, a, r)
    requires r <= r'
    requires (OnlyAt(x, b, r') && b !in y) || (OnlyAt(y, b, r') && b !in x)
    ensures RrfSum(x, a) + RrfSum(y, a) > RrfSum(x, b) + RrfSum(y, b)
  {
    RrfSumSingle(x, a, r);
    RrfSumSingle(y, a, r);
    if OnlyAt(x, b, r') && b !in y {
      RrfSumSingle(x, b, r');
      RrfSumAbsent(y, b);
    } else {
      RrfSumSingle(y, b, r');
      RrfSumAbsent(x, b);
    }
    ReciprocalAntitone(r + 61, r' + 61);
  }

  /**
   * A key at rank `r` in both lists is ordered before a key that appears in only
   * one list, at a rank no better than `r`.
   */
  lemma DoubleListedRanksFirst(bm: seq<Document>, sem: seq<Document>, a: string, r: nat, b: string, r': nat)
    requires OnlyAt(Keys(bm), a, r) && OnlyAt(Keys(sem), a, r)
    requires r <= r'
    requires (OnlyAt(Keys(bm), b, r') && b !in Keys(sem)) || (OnlyAt(Keys(sem), b, r') && b !in Keys(bm))
    ensures a in FusionOrder(bm, sem) && b in FusionOrder(bm, sem)
    ensures IndexOf(FusionOrder(bm, sem), a) < IndexOf(FusionOrder(bm, sem), b)
  {
    DoubleListedScoresHigher(Keys(bm), Keys(sem), a, r, b, r');
    assert a in Keys(bm) + Keys(sem) && b in Keys(bm) + Keys(sem) by {
      assert Keys(bm)[r] == a;
      if OnlyAt(Keys(bm), b, r') && b !in Keys(sem) {
        assert Keys(bm)[r'] == b;
      } else {
        assert Keys(sem)[r'] == b;
      }
    }
    FusionOrderPermutation(bm, sem);
    var o := FusionOrder(bm, sem);
    var ia := IndexOf(o, a);
    var ib := IndexOf(o, b);
    if ib < ia {
      FusionOrderSorted(bm, sem, ib, ia);
      assert false;
    }
  }

  /**
   * The id fallback disagrees between the dict of documents (positions in the
   * concatenated lists) and the ranked key lists (positions in each list): an
   * id-less semantic hit behind a BM25 hit raises `KeyError`.
   */
  lemma MissingIdRaisesKeyError()
    ensures Fuse([Document("a", map["id" := "x"])], [Document("b", map[])], 2).None?
  {
    var bm := [Document("a", map["id" := "x"])];
    var sem := [Document("b", map[])];
    assert Keys(bm) == ["x"];
    assert Keys(sem) == ["0"];
    assert Keys(bm + sem) == ["x", "1"];
    var c := FusionCandidates(bm, sem);
    assert "0" in c;
    var o := FusionOrder(bm, sem);
    FusionOrderPermutation(bm, sem);
    assert "0" in o;
    var all := LastByKey(Keys(bm + sem), bm + sem);
    assert "0" !in all;
  }

  // ---------------------------------------------------------------------
  // The fusion as the source computes it
  // ---------------------------------------------------------------------

  /** The ranked lists, one after the other. */
  function Concat(lists: seq<seq<string>>): seq<string> {
    if lists == [] then [] else Concat(lists[..|lists| - 1]) + lists[|lists| - 1]
  }

  /** The RRF contributions of every list to `key`. */
  function SumOver(lists: seq<seq<string>>, key: string): real {
    if lists == [] then 0.0 else SumOver(lists[..|lists| - 1], key) + RrfSum(lists[|lists| - 1], key)
  }

  lemma {:induction false} SumOverAbsent(lists: seq<seq<string>>, key: string)
    requires key !in Concat(lists)
    ensures SumOver(lists, key) == 0.0
  {
    if lists != [] {
      var n := |lists| - 1;
      SumOverAbsent(lists[..n], key);
      RrfSumAbsent(lists[n], key);
    }
  }

  lemma PairOfLists(x: seq<string>, y: seq<string>)
    ensures Concat([x, y]) == x + y
    ensures forall key :: SumOver([x, y], key) == RrfSum(x, key) + RrfSum(y, key)
  {
    assert [x, y][..1] == [x];
    assert [x][..0] == [];
    assert Concat([x]) == x;
    assert forall key :: SumOver([x], key) == RrfSum(x, key);
  }

  /** The lists up to `l + 1` are those up to `l` followed by list `l`. */
  lemma ListsSnoc(lists: seq<seq<string>>, l: nat)
    requires l < |lists|
    ensures Concat(lists[..l + 1]) == Concat(lists[..l]) + lists[l]
    ensures forall key :: SumOver(lists[..l + 1], key) == SumOver(lists[..l], key) + RrfSum(lists[l], key)
  {
    assert lists[..l + 1][..l] == lists[..l];
  }

  lemma SliceSnoc(prior: seq<string>, ranked: seq<string>, i: nat)
    requires i < |ranked|
    ensures prior + ranked[..i + 1] == (prior + ranked[..i]) + [ranked[i]]
  {
    assert ranked[..i + 1] == ranked[..i] + [ranked[i]];
  }

  /** One more position adds its reciprocal rank to its own key only. */
  lemma RrfSumSnoc(keys: seq<string>, i: nat, key: string)
    requires i < |keys|
    ensures RrfSum(keys[..i + 1], key) == RrfSum(keys[..i], key) + (if keys[i] == key then 1.0 / ((i + 61) as real) else 0.0)
  {
    assert keys[..i + 1][..i] == keys[..i];
  }

  /**
   * One pass of the score loop of `hybrid_search`, over one ranked list: add
   * `1/(i + 61)` to the entry of the key at each position `i`, creating the entry
   * at 0 on first sight.
   */
  method AddRankedList(ranked: seq<string>, order0: seq<string>, scores0: map<string, real>, ghost prior: seq<string>)
    returns (order: seq<string>, scores: map<string, real>)
    requires order0 == FirstSeen(prior)
    requires forall key :: key in scores0 <==> key in prior
    ensures order == FirstSeen(prior + ranked)
    ensures forall key :: key in scores <==> key in prior + ranked
    ensures forall key :: key in scores ==> scores[key] == Expected(scores0, ranked, |ranked|, key)
  {
    order, scores := order0, scores0;
    ghost var seen := prior;
    var i := 0;
    while i < |ranked|
      invariant 0 <= i <= |ranked|
      invariant seen == prior + ranked[..i]
      invariant order == FirstSeen(seen)
      invariant forall key :: key in scores <==> key in seen
      invariant forall key :: key in scores ==> scores[key] == Expected(scores0, ranked, i, key)
    {
      var key := ranked[i];
      var current := 0.0;
      ghost var (order1, before) := (order, scores);
      if key in scores {
        current := scores[key];
      } else {
        order := order + [key];
      }
      scores := scores[key := current + 1.0 / ((i + 61) as real)];
      AddStep(scores0, ranked, i, prior, seen, order1, before, current, order, scores);
      seen := seen + [key];
      i := i + 1;
    }
    assert ranked[..i] == ranked;
  }

  /**
   * One position of the score loop keeps the candidate order and the score map in
   * step with the keys seen and their expected scores.
   */
  lemma AddStep(scores0: map<string, real>, ranked: seq<string>, i: nat, prior: seq<string>, seen: seq<string>,
                order: seq<string>, before: map<string, real>, current: real, order': seq<string>, after: map<string, real>)
    requires i < |ranked| && seen == prior + ranked[..i]
    requires forall key :: key in scores0 <==> key in prior
    requires order == FirstSeen(seen)
    requires forall key :: key in before <==> key in seen
    requires forall key :: key in before ==> before[key] == Expected(scores0, ranked, i, key)
    requires current == if ranked[i] in before then before[ranked[i]] else 0.0
    requires order' == if ranked[i] in before then order else order + [ranked[i]]
    requires after == before[ranked[i] := current + 1.0 / ((i + 61) as real)]
    ensures seen + [ranked[i]] == prior + ranked[..i + 1]
    ensures order' == FirstSeen(seen + [ranked[i]])
    ensures forall x :: x in after <==> x in seen + [ranked[i]]
    ensures forall x :: x in after ==> after[x] == Expected(scores0, ranked, i + 1, x)
  {
    var key := ranked[i];
    SliceSnoc(prior, ranked, i);
    FirstSeenStep(seen, key);
    ExpectedStep(scores0, ranked, i);
    if key !in before {
      ExpectedFresh(scores0, ranked, i, prior);
    }
  }

  lemma FirstSeenStep(seen: seq<string>, key: string)
    ensures key in seen ==> FirstSeen(seen + [key]) == FirstSeen(seen)
    ensures key !in seen ==> FirstSeen(seen + [key]) == FirstSeen(seen) + [key]
  {
    assert (seen + [key])[..|seen|] == seen;
  }

  /** The score of `key` after the first `i` positions of `ranked`. */
  ghost function Expected(scores0: map<string, real>, ranked: seq<string>, i: nat, key: string): real
    requires i <= |ranked|
  {
    (if key in scores0 then scores0[key] else 0.0) + RrfSum(ranked[..i], key)
  }

  lemma ExpectedStep(scores0: map<string, real>, ranked: seq<string>, i: nat)
    requires i < |ranked|
    ensures forall x :: Expected(scores0, ranked, i + 1, x) == Expected(scores0, ranked, i, x) + (if x == ranked[i] then 1.0 / ((i + 61) as real) else 0.0)
  {
    forall x { RrfSumSnoc(ranked, i, x); }
  }

  lemma ExpectedFresh(scores0: map<string, real>, ranked: seq<string>, i: nat, prior: seq<string>)
    requires i < |ranked|
    requires forall key :: key in scores0 ==> key in prior
    requires ranked[i] !in prior + ranked[..i]
    ensures Expected(scores0, ranked, i, ranked[i]) == 0.0
  {
    RrfSumAbsent(ranked[..i], ranked[i]);
  }

  /**
   * The score loop of `hybrid_search` over all ranked lists. The keys end up in
   * order of first appearance over all lists, each with the sum of its
   * reciprocal-rank contributions.
   */
  method AccumulateRrf(lists: seq<seq<string>>) returns (order: seq<string>, scores: map<string, real>)
    ensures order == FirstSeen(Concat(lists))
    ensures forall key :: key in scores <==> key in order
    ensures forall key :: key in scores ==> scores[key] == SumOver(lists, key)
  {
    order := [];
    scores := map[];
    var l := 0;
    while l < |lists|
      invariant 0 <= l <= |lists|
      invariant order == FirstSeen(Concat(lists[..l]))
      invariant forall key :: key in scores <==> key in Concat(lists[..l])
      invariant forall key :: key in scores ==> scores[key] == SumOver(lists[..l], key)
    {
      ghost var scores0 := scores;
      order, scores := AddRankedList(lists[l], order, scores, Concat(lists[..l]));
      ListsSnoc(lists, l);
      assert lists[l][..|lists[l]|] == lists[l];
      forall key | key in scores && key !in scores0 ensures SumOver(lists[..l], key) == 0.0 {
        SumOverAbsent(lists[..l], key);
      }
      l := l + 1;
    }
    assert lists[..l] == lists;
  }

  /**
   * `hybrid_search`: run both searches with the same `k`, index their documents
   * by key, score the keys by Reciprocal Rank Fusion, sort them by score and take
   * the documents of the first `k`. The result is the specification `Fuse` applied
   * to the two searches.
   */
  method HybridSearch(r: HybridRetriever, query: string, filter: Option<string>, k: nat,
                      bm25: Bm25Scorer, similar: Similarity) returns (out: Option<seq<Document>>)
    requires Valid(r)
    ensures out == Fuse(Bm25Search(r, query, k, bm25), VectorSearch(r, query, filter, k, similar), k)
  {
    var bmDocs := Bm25Search(r, query, k, bm25);
    var semDocs := VectorSearch(r, query, filter, k, similar);
    out := FuseResults(bmDocs, semDocs, k);
  }

  /** The keys and scores accumulated over the two key lists are the fusion candidates and their scores. */
  lemma AccumulatedScores(bm: seq<Document>, sem: seq<Document>, order: seq<string>,
                          scores: map<string, real>, sc: seq<real>)
    requires order == FirstSeen(Concat([Keys(bm), Keys(sem)]))
    requires forall key :: key in scores <==> key in order
    requires forall key :: key in scores ==> scores[key] == SumOver([Keys(bm), Keys(sem)], key)
    requires |sc| == |order| && forall j :: 0 <= j < |order| ==> sc[j] == scores[order[j]]
    ensures order == FusionCandidates(bm, sem)
    ensures sc == FusionScores(bm, sem)
  {
    PairOfLists(Keys(bm), Keys(sem));
    forall j | 0 <= j < |sc| ensures sc[j] == FusionScores(bm, sem)[j] {
      assert order[j] in scores;
    }
  }

  /** The fusion part of `hybrid_search`, on the two searches' results. */
  method FuseResults(bmDocs: seq<Document>, semDocs: seq<Document>, k: nat) returns (out: Option<seq<Document>>)
    ensures out == Fuse(bmDocs, semDocs, k)
  {
    var allDocs := LastByKey(Keys(bmDocs + semDocs), bmDocs + semDocs);

    var order, scores := AccumulateRrf([Keys(bmDocs), Keys(semDocs)]);
    PairOfLists(Keys(bmDocs), Keys(semDocs));

    // sorted(rrf_scores.keys(), key=lambda x: rrf_scores[x], reverse=True)
    var sc := seq(|order|, j requires 0 <= j < |order| => scores[order[j]]);
    AccumulatedScores(bmDocs, semDocs, order, scores, sc);
    Ranking.RankIsSortedPermutation(sc, true);
    var sortedIds := Ranking.Arrange(order, Ranking.Rank(sc, true));
    assert sortedIds == FusionOrder(bmDocs, semDocs);

    var top := sortedIds[..if k <= |sortedIds| then k else |sortedIds|];
    if forall t :: t in top ==> t in allDocs {
      out := Some(seq(|top|, j requires 0 <= j < |top| => allDocs[top[j]]));
    } else {
      out := None;  // KeyError
    }
  }
}
