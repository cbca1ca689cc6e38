/**
 * The research context the final answer is synthesised from: for each past
 * step in order, a header naming the step, then one block per retrieved
 * document giving its source and its content. Built the same way by the final
 * answer node and by the recovery path.
 */
module Findings {
  import opened Text
  import opened GraphNodes

  /** `doc.metadata.get('section') or doc.metadata.get('source', 'Unknown')`: an empty section counts as missing. */
  function SourceOf(d: Document): string {
    if "section" in d.metadata && d.metadata["section"] != "" then d.metadata["section"]
    else MetaGet(d, "source", "Unknown")
  }

  /** The block of one document. */
  function DocBlock(d: Document): string {
    "Source: " + SourceOf(d) + "\nContent: " + d.content + "\n\n"
  }

  /** The header opening the findings of step `i` (0-based), numbered from 1. */
  function StepHeader(i: nat): (r: string)
    ensures r != []
  {
    "\n--- Findings from Research Step " + NatToString(i + 1) + " ---\n"
  }

  /** The blocks of a step's documents, in order. */
  function DocBlocks(docs: seq<Document>): string {
    if docs == [] then "" else DocBlocks(docs[..|docs| - 1]) + DocBlock(docs[|docs| - 1])
  }

  /** The whole research context: each step's header followed by its document blocks. */
  function FinalContext(steps: seq<PastStep>): string {
    if steps == [] then ""
    else
      var n := |steps| - 1;
      FinalContext(steps[..n]) + StepHeader(n) + DocBlocks(steps[n].retrievedDocs)
  }

  /** The context is empty exactly when there are no past steps, whatever documents they hold. */
  lemma FinalContextEmpty(steps: seq<PastStep>)
    ensures FinalContext(steps) == "" <==> steps == []
  {
    if steps != [] {
      var n := |steps| - 1;
      assert |FinalContext(steps)| >= |StepHeader(n)| > 0;
    }
  }

  /** Earlier steps' findings are a prefix of the context: steps appear in order and are never rewritten. */
  lemma {:induction false} FinalContextPrefix(steps: seq<PastStep>, k: nat)
    requires k <= |steps|
    ensures FinalContext(steps[..k]) <= FinalContext(steps)
    decreases |steps|
  {
    if k < |steps| {
      var n := |steps| - 1;
      assert steps[..n][..k] == steps[..k];
      FinalContextPrefix(steps[..n], k);
    } else {
      assert steps[..k] == steps;
    }
  }

  /** The findings of step `i` follow those of the steps before it, under the header numbered `i + 1`. */
  lemma FinalContextStep(steps: seq<PastStep>, i: nat)
    requires i < |steps|
    ensures FinalContext(steps[..i]) + StepHeader(i) + DocBlocks(steps[i].retrievedDocs) <= FinalContext(steps)
  {
    assert steps[..i + 1][..i] == steps[..i];
    FinalContextPrefix(steps, i + 1);
  }

  /** Appending the block of document `j` to the text holding the blocks before it. */
  lemma DocBlocksSnoc(docs: seq<Document>, j: nat, prefix: string, ctx: string)
    requires j < |docs|
    requires ctx == prefix + DocBlocks(docs[..j])
    ensures ctx + DocBlock(docs[j]) == prefix + DocBlocks(docs[..j + 1])
  {
    assert docs[..j + 1][..j] == docs[..j];
  }

  /** A step's header and its blocks, appended to the context of the steps before it. */
  lemma FinalContextSnoc(steps: seq<PastStep>, i: nat, start: string, ctx: string)
    requires i < |steps|
    requires start == FinalContext(steps[..i])
    requires ctx == start + StepHeader(i) + DocBlocks(steps[i].retrievedDocs[..|steps[i].retrievedDocs|])
    ensures ctx == FinalContext(steps[..i + 1])
  {
    assert steps[i].retrievedDocs[..|steps[i].retrievedDocs|] == steps[i].retrievedDocs;
    assert steps[..i + 1][..i] == steps[..i];
  }

  /**
   * The loops of `final_answer_node` and `_generate_final_from_context`: append
   * each step's header, then each of its documents' blocks.
   */
  method BuildFinalContext(steps: seq<PastStep>) returns (ctx: string)
    ensures ctx == FinalContext(steps)
  {
    ctx := "";
    var i := 0;
    while i < |steps|
      invariant 0 <= i <= |steps|
      invariant ctx == FinalContext(steps[..i])
    {
      ghost var start := ctx;
      ctx := ctx + StepHeader(i);
      var docs := steps[i].retrievedDocs;
      var j := 0;
      while j < |docs|
        invariant 0 <= j <= |docs|
        invariant ctx == start + StepHeader(i) + DocBlocks(docs[..j])
      {
        DocBlocksSnoc(docs, j, start + StepHeader(i), ctx);
        ctx := ctx + DocBlock(docs[j]);
        j := j + 1;
      }
      FinalContextSnoc(steps, i, start, ctx);
      i := i + 1;
    }
    assert steps[..i] == steps;
  }
}
