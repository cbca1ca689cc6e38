/**
 * `process_documents_with_metadata`: join the loaded documents into one text,
 * cut it into titled sections (by header lines, else by paragraphs, else one
 * section for the whole text), split each non-blank section into chunks and tag
 * every chunk with its section title, its source file and a fresh id.
 *
 * The text splitter and `uuid4` are outside the model: `splitter` gives the
 * chunks of a section's text and `freshIds(n)` is the `n`-th id drawn.
 */
module Segmentation {
  import opened Text
  import opened GraphNodes
  import Retrieval

  const TitleLimit: nat := 200
  const DefaultTitle := "Document Content"
  const FullDocumentTitle := "Full Document"
  const UnknownSource := "unknown"

  /** An accepted header: its line number and its stripped text. */
  datatype Header = Header(line: nat, title: string)

  /** A section title and its text. */
  datatype Section = Section(title: string, content: string)

  // ---------------------------------------------------------------------
  // Header detection
  // ---------------------------------------------------------------------

  /**
   * A stripped line that looks like a header: non-blank, short, capitalised or
   * numbered, and all upper-case or holding an upper-case letter. The first
   * alternative implies the second, so a header is exactly a short, capitalised
   * or numbered line with an upper-case letter.
   */
  predicate PotentialHeader(t: string): (r: bool)
    ensures r <==> t != [] && |t| < 100 && (IsUpper(t[0]) || IsDigit(t[0])) && HasUpperLetter(t)
  {
    if StrIsUpper(t) then
      StrIsUpperHasUpperLetter(t);
      t != [] && |t| < 100 && (IsUpper(t[0]) || IsDigit(t[0])) && (StrIsUpper(t) || HasUpperLetter(t))
    else
      t != [] && |t| < 100 && (IsUpper(t[0]) || IsDigit(t[0])) && (StrIsUpper(t) || HasUpperLetter(t))
  }

  /** A stripped line that shows content follows a header: non-blank, and not capitalised or longer than 50. */
  predicate ConfirmsHeader(t: string) {
    t != [] && (!IsUpper(t[0]) || |t| > 50)
  }

  /** The end of the look-ahead window after line `i`: four lines at most. */
  function LookaheadEnd(lines: seq<string>, i: nat): (r: nat)
    ensures r <= |lines| && r <= i + 5
    ensures i < |lines| ==> i + 1 <= r
  {
    if i + 5 <= |lines| then i + 5 else |lines|
  }

  predicate FollowedByContent(lines: seq<string>, i: nat) {
    exists j :: i + 1 <= j < LookaheadEnd(lines, i) && ConfirmsHeader(Strip(lines[j]))
  }

  /** Line `i` is kept as a header: it looks like one, and it is the first line or content follows within four lines. */
  predicate Accepted(lines: seq<string>, i: nat): (r: bool)
    requires i < |lines|
    ensures r ==> Strip(lines[i]) != [] && HasUpperLetter(Strip(lines[i]))
    ensures r && i > 0 ==> i + 1 < |lines|
  {
    PotentialHeader(Strip(lines[i])) && (i == 0 || FollowedByContent(lines, i))
  }

  /** The accepted headers among the first `n` lines, in order. */
  function HeadersUpTo(lines: seq<string>, n: nat): (r: seq<Header>)
    requires n <= |lines|
    ensures forall k :: 0 <= k < |r| ==>
      r[k].line < n && Accepted(lines, r[k].line) && r[k].title == Strip(lines[r[k].line])
    ensures forall a, b :: 0 <= a < b < |r| ==> r[a].line < r[b].line
  {
    if n == 0 then []
    else HeadersUpTo(lines, n - 1) + if Accepted(lines, n - 1) then [Header(n - 1, Strip(lines[n - 1]))] else []
  }

  function Headers(lines: seq<string>): seq<Header> {
    HeadersUpTo(lines, |lines|)
  }

  /** Line `i` adds its header exactly when it is accepted. */
  lemma HeadersStep(lines: seq<string>, i: nat, hs: seq<Header>, accepted: bool, hs': seq<Header>)
    requires i < |lines| && hs == HeadersUpTo(lines, i)
    requires accepted == Accepted(lines, i)
    requires hs' == if accepted then hs + [Header(i, Strip(lines[i]))] else hs
    ensures hs' == HeadersUpTo(lines, i + 1)
  {
  }

  predicate Listed(hs: seq<Header>, i: nat) {
    exists k :: 0 <= k < |hs| && hs[k].line == i
  }

  /** Every accepted line among the first `n` is listed: with the ensures above, a line is a header iff it is accepted. */
  lemma {:induction false} HeadersComplete(lines: seq<string>, n: nat)
    requires n <= |lines|
    ensures forall i :: 0 <= i < n && Accepted(lines, i) ==> Listed(HeadersUpTo(lines, n), i)
  {
    if n > 0 {
      var prev := HeadersUpTo(lines, n - 1);
      HeadersComplete(lines, n - 1);
      var r := HeadersUpTo(lines, n);
      forall i | 0 <= i < n && Accepted(lines, i)
        ensures Listed(r, i)
      {
        if i < n - 1 {
          var k :| 0 <= k < |prev| && prev[k].line == i;
          assert r[k] == prev[k];
        } else {
          assert r[|prev|].line == i;
        }
      }
    }
  }

  /** The inner look-ahead loop: the first confirming line within four lines after `i`, or "". */
  method NextContent(lines: seq<string>, i: nat) returns (next: string)
    requires i < |lines|
    ensures next != [] <==> FollowedByContent(lines, i)
    ensures next != [] ==> ConfirmsHeader(next)
  {
    next := "";
    var stop := LookaheadEnd(lines, i);
    var j := i + 1;
    while j < stop
      invariant i + 1 <= j <= stop
      invariant forall m :: i + 1 <= m < j ==> !ConfirmsHeader(Strip(lines[m]))
    {
      var t := Strip(lines[j]);
      if t != [] && (!IsUpper(t[0]) || |t| > 50) {
        next := t;
        return;
      }
      j := j + 1;
    }
  }

  /** The header scan over every line. */
  method FindHeaders(lines: seq<string>) returns (hs: seq<Header>)
    ensures hs == Headers(lines)
  {
    hs := [];
    var i := 0;
    while i < |lines|
      invariant 0 <= i <= |lines|
      invariant hs == HeadersUpTo(lines, i)
    {
      var t := Strip(lines[i]);
      var accepted := false;
      if t != [] {
        var potential := |t| < 100 && (IsUpper(t[0]) || IsDigit(t[0])) && (StrIsUpper(t) || HasUpperLetter(t));
        assert potential == PotentialHeader(t);
        if potential {
          var next := NextContent(lines, i);
          accepted := next != [] || i == 0;
        }
      }
      ghost var before := hs;
      if accepted {
        hs := hs + [Header(i, t)];
      }
      HeadersStep(lines, i, before, accepted, hs);
      i := i + 1;
    }
  }

  // ---------------------------------------------------------------------
  // Sections from headers
  // ---------------------------------------------------------------------

  /** Headers lie within the text, in increasing line order. */
  predicate Ordered(lines: seq<string>, hs: seq<Header>) {
    && (forall k :: 0 <= k < |hs| ==> hs[k].line < |lines|)
    && (forall a, b :: 0 <= a < b < |hs| ==> hs[a].line < hs[b].line)
  }

  /** The line where section `idx` ends: the next header's, or the end of the text. */
  function SectionEnd(lines: seq<string>, hs: seq<Header>, idx: nat): nat
    requires idx < |hs|
  {
    if idx + 1 < |hs| then hs[idx + 1].line else |lines|
  }

  /** The stripped text strictly between header `idx` and the next header (or the end). */
  function SectionBody(lines: seq<string>, hs: seq<Header>, idx: nat): string
    requires Ordered(lines, hs) && idx < |hs|
  {
    Strip(Join(lines[hs[idx].line + 1..SectionEnd(lines, hs, idx)], "\n"))
  }

  /**
   * The sections of the first `n` headers. The first is always kept, even when
   * empty; every other kept section has text, and each is some header's title
   * with that header's body.
   */
  function HeaderSectionsUpTo(lines: seq<string>, hs: seq<Header>, n: nat): (r: seq<Section>)
    requires Ordered(lines, hs) && n <= |hs|
    ensures |r| <= n
    ensures n > 0 ==> r != [] && r[0] == Section(hs[0].title, SectionBody(lines, hs, 0))
    ensures forall k :: 1 <= k < |r| ==> r[k].content != []
  {
    if n == 0 then []
    else
      var body := SectionBody(lines, hs, n - 1);
      HeaderSectionsUpTo(lines, hs, n - 1) + if body != [] || n - 1 == 0 then [Section(hs[n - 1].title, body)] else []
  }

  function HeaderSections(lines: seq<string>, hs: seq<Header>): seq<Section>
    requires Ordered(lines, hs)
  {
    HeaderSectionsUpTo(lines, hs, |hs|)
  }

  /** The loop over the accepted headers. */
  method CollectHeaderSections(lines: seq<string>, hs: seq<Header>) returns (sections: seq<Section>)
    requires Ordered(lines, hs)
    ensures sections == HeaderSections(lines, hs)
  {
    sections := [];
    var idx := 0;
    while idx < |hs|
      invariant 0 <= idx <= |hs|
      invariant sections == HeaderSectionsUpTo(lines, hs, idx)
    {
      var lineNum := hs[idx].line;
      var nextLineNum := if idx + 1 < |hs| then hs[idx + 1].line else |lines|;
      var content := Strip(Join(lines[lineNum + 1..nextLineNum], "\n"));
      if content != [] || idx == 0 {
        sections := sections + [Section(hs[idx].title, content)];
      }
      idx := idx + 1;
    }
  }

  // ---------------------------------------------------------------------
  // Sections from paragraphs
  // ---------------------------------------------------------------------

  /** The state of the paragraph loop: the current title, its paragraphs so far, and the finished sections. */
  datatype Pending = Pending(title: string, paragraphs: seq<string>, sections: seq<Section>)

  /** A stripped paragraph that opens a new section: short and capitalised. */
  predicate StartsSection(p: string) {
    p != [] && |p| < 100 && IsUpper(p[0])
  }

  /** The finished sections, followed by the current one when it has paragraphs. */
  function Flushed(acc: Pending): seq<Section> {
    acc.sections + if acc.paragraphs != [] then [Section(acc.title, Join(acc.paragraphs, "\n\n"))] else []
  }

  function FallbackStep(acc: Pending, para: string): Pending {
    var p := Strip(para);
    if p == [] then acc
    else if StartsSection(p) then Pending(p, [], Flushed(acc))
    else Pending(acc.title, acc.paragraphs + [p], acc.sections)
  }

  function FallbackUpTo(paras: seq<string>, n: nat): Pending
    requires n <= |paras|
  {
    if n == 0 then Pending(DefaultTitle, [], []) else FallbackStep(FallbackUpTo(paras, n - 1), paras[n - 1])
  }

  function FallbackSections(raw: string): seq<Section> {
    var paras := Split(raw, "\n\n");
    Flushed(FallbackUpTo(paras, |paras|))
  }

  /** The paragraph loop, with its final flush. */
  method CollectParagraphSections(raw: string) returns (sections: seq<Section>)
    ensures sections == FallbackSections(raw)
  {
    var paragraphs := Split(raw, "\n\n");
    var title := DefaultTitle;
    var current: seq<string> := [];
    sections := [];
    var i := 0;
    while i < |paragraphs|
      invariant 0 <= i <= |paragraphs|
      invariant Pending(title, current, sections) == FallbackUpTo(paragraphs, i)
    {
      var p := Strip(paragraphs[i]);
      if p != [] {
        if |p| < 100 && IsUpper(p[0]) {
          if current != [] {
            sections := sections + [Section(title, Join(current, "\n\n"))];
          }
          title := p;
          current := [];
        } else {
          current := current + [p];
        }
      }
      i := i + 1;
    }
    if current != [] {
      sections := sections + [Section(title, Join(current, "\n\n"))];
    }
  }

  /** Text that does not start with whitespace, so it survives `strip()`. */
  predicate NonBlank(s: string) {
    s != [] && !IsSpace(s[0])
  }

  /** Every title is the default or an opening paragraph, and every section holds text. */
  predicate GoodSection(s: Section) {
    (s.title == DefaultTitle || StartsSection(s.title)) && NonBlank(s.content)
  }

  predicate GoodPending(acc: Pending) {
    && (acc.title == DefaultTitle || StartsSection(acc.title))
    && (forall k :: 0 <= k < |acc.paragraphs| ==> NonBlank(acc.paragraphs[k]))
    && (forall k :: 0 <= k < |acc.sections| ==> GoodSection(acc.sections[k]))
  }

  lemma JoinHead(parts: seq<string>, sep: string)
    requires parts != [] && parts[0] != []
    ensures Join(parts, sep) != [] && Join(parts, sep)[0] == parts[0][0]
  {
  }

  lemma FlushedGood(acc: Pending)
    requires GoodPending(acc)
    ensures forall k :: 0 <= k < |Flushed(acc)| ==> GoodSection(Flushed(acc)[k])
  {
    if acc.paragraphs != [] {
      JoinHead(acc.paragraphs, "\n\n");
    }
  }

  lemma {:induction false} FallbackGood(paras: seq<string>, n: nat)
    requires n <= |paras|
    ensures GoodPending(FallbackUpTo(paras, n))
  {
    if n > 0 {
      var acc := FallbackUpTo(paras, n - 1);
      FallbackGood(paras, n - 1);
      FlushedGood(acc);
      StripSpec(paras[n - 1]);
    }
  }

  /**
   * In paragraph mode every section has text that is not blank, and its title
   * is "Document Content" or a short capitalised paragraph.
   */
  lemma FallbackSectionsGood(raw: string)
    ensures forall k :: 0 <= k < |FallbackSections(raw)| ==> GoodSection(FallbackSections(raw)[k])
  {
    var paras := Split(raw, "\n\n");
    FallbackGood(paras, |paras|);
    FlushedGood(FallbackUpTo(paras, |paras|));
  }

  // ---------------------------------------------------------------------
  // Sections of a text
  // ---------------------------------------------------------------------

  /** Header sections when a header is found, else paragraph sections, else the whole text as one section. */
  function Sections(raw: string): (r: seq<Section>)
    ensures r != []
  {
    var lines := Split(raw, "\n");
    var hs := Headers(lines);
    var found := if hs != [] then HeaderSections(lines, hs) else FallbackSections(raw);
    if found == [] then [Section(FullDocumentTitle, raw)] else found
  }

  /** The sectioning part of the source, header scan and both loops. */
  method SplitIntoSections(raw: string) returns (sections: seq<Section>)
    ensures sections == Sections(raw)
  {
    var lines := Split(raw, "\n");
    var hs := FindHeaders(lines);
    if hs != [] {
      sections := CollectHeaderSections(lines, hs);
    } else {
      sections := CollectParagraphSections(raw);
    }
    if sections == [] {
      sections := [Section(FullDocumentTitle, raw)];
    }
  }

  /**
   * In header mode the first section is the first header with its body, whatever
   * that body holds: the whole-text fallback only ever follows paragraph mode.
   */
  lemma HeaderModeStartsAtFirstHeader(raw: string)
    requires Headers(Split(raw, "\n")) != []
    ensures var lines := Split(raw, "\n");
      var hs := Headers(lines);
      Sections(raw)[0] == Section(hs[0].title, SectionBody(lines, hs, 0))
  {
  }

  /** A text without a header and without a non-blank paragraph becomes the single section "Full Document". */
  lemma NoSectionsFallback(raw: string)
    requires Headers(Split(raw, "\n")) == []
    requires forall k :: 0 <= k < |Split(raw, "\n\n")| ==> Strip(Split(raw, "\n\n")[k]) == []
    ensures Sections(raw) == [Section(FullDocumentTitle, raw)]
  {
    var paras := Split(raw, "\n\n");
    FallbackUntouched(paras, |paras|);
  }

  lemma {:induction false} FallbackUntouched(paras: seq<string>, n: nat)
    requires n <= |paras|
    requires forall k :: 0 <= k < n ==> Strip(paras[k]) == []
    ensures FallbackUpTo(paras, n) == Pending(DefaultTitle, [], [])
  {
    if n > 0 {
      FallbackUntouched(paras, n - 1);
    }
  }

  // ---------------------------------------------------------------------
  // Chunks
  // ---------------------------------------------------------------------

  /** A section title with newlines turned into spaces, stripped, cut to 200 characters. */
  function CleanTitle(title: string): (r: string)
    ensures |r| <= TitleLimit
    ensures '\n' !in r
  {
    var flat := ReplaceChar(title, '\n', ' ');
    var s := Strip(flat);
    ReplaceCharRemoves(title, '\n', ' ');
    StripAbsent(flat, '\n');
    Take(s, TitleLimit)
  }

  function ChunkMetadata(title: string, source: string, id: string): map<string, string> {
    map["section" := title, "source_doc" := source, "file_name" := source, "id" := id]
  }

  /**
   * The chunks of one section, whose ids are drawn from position `base` on. A
   * blank section gives none; a section the splitter returns nothing for gives
   * one chunk of its stripped text.
   */
  function SectionChunks(sec: Section, source: string, splitter: string -> seq<string>, freshIds: nat -> string, base: nat): (r: seq<Document>)
  {
    var text := Strip(sec.content);
    if text == [] then []
    else
      var title := CleanTitle(sec.title);
      var pieces := splitter(sec.content);
      if pieces == [] then
        [Document(if text != [] then text else title, ChunkMetadata(title, source, freshIds(base)))]
      else PieceChunks(pieces, title, source, freshIds, base, |pieces|)
  }

  /** The first `n` pieces as chunks, piece `k` taking the id drawn at `base + k`. */
  function PieceChunks(pieces: seq<string>, title: string, source: string, freshIds: nat -> string, base: nat, n: nat): (r: seq<Document>)
    requires n <= |pieces|
    ensures |r| == n
  {
    if n == 0 then []
    else PieceChunks(pieces, title, source, freshIds, base, n - 1) + [Document(pieces[n - 1], ChunkMetadata(title, source, freshIds(base + n - 1)))]
  }

  function ChunksUpTo(sections: seq<Section>, source: string, splitter: string -> seq<string>, freshIds: nat -> string, n: nat): seq<Document>
    requires n <= |sections|
  {
    if n == 0 then []
    else
      var prev := ChunksUpTo(sections, source, splitter, freshIds, n - 1);
      prev + SectionChunks(sections[n - 1], source, splitter, freshIds, |prev|)
  }

  /** `documents[0].metadata.get('file_name', 'unknown')`, or "unknown" with no documents. */
  function SourceFile(documents: seq<Document>): string {
    if documents == [] then UnknownSource else MetaGet(documents[0], "file_name", UnknownSource)
  }

  function RawText(documents: seq<Document>): string {
    Join(DocContents(documents), "\n\n")
  }

  /** The chunks `process_documents_with_metadata` returns. */
  function Process(documents: seq<Document>, splitter: string -> seq<string>, freshIds: nat -> string): seq<Document> {
    var sections := Sections(RawText(documents));
    ChunksUpTo(sections, SourceFile(documents), splitter, freshIds, |sections|)
  }

  /** The body of the chunk loop for one section: the chunks so far, then this section's. */
  method ChunkSection(sec: Section, source: string, splitter: string -> seq<string>, freshIds: nat -> string, chunks0: seq<Document>)
    returns (chunks: seq<Document>)
    ensures chunks == chunks0 + SectionChunks(sec, source, splitter, freshIds, |chunks0|)
  {
    chunks := chunks0;
    var text := Strip(sec.content);
    if text == [] {
      return;
    }
    var title := CleanTitle(sec.title);
    var pieces := splitter(sec.content);
    if pieces == [] {
      chunks := chunks + [Document(if text != [] then text else title, ChunkMetadata(title, source, freshIds(|chunks|)))];
    } else {
      var p := 0;
      while p < |pieces|
        invariant 0 <= p <= |pieces|
        invariant chunks == chunks0 + PieceChunks(pieces, title, source, freshIds, |chunks0|, p)
      {
        chunks := chunks + [Document(pieces[p], ChunkMetadata(title, source, freshIds(|chunks|)))];
        p := p + 1;
      }
    }
  }

  /** The chunk loop over the sections. */
  method ChunkSections(sections: seq<Section>, source: string, splitter: string -> seq<string>, freshIds: nat -> string)
    returns (chunks: seq<Document>)
    ensures chunks == ChunksUpTo(sections, source, splitter, freshIds, |sections|)
  {
    chunks := [];
    var s := 0;
    while s < |sections|
      invariant 0 <= s <= |sections|
      invariant chunks == ChunksUpTo(sections, source, splitter, freshIds, s)
    {
      ChunksUpToStep(sections, source, splitter, freshIds, s);
      chunks := ChunkSection(sections[s], source, splitter, freshIds, chunks);
      s := s + 1;
    }
  }

  lemma ChunksUpToStep(sections: seq<Section>, source: string, splitter: string -> seq<string>, freshIds: nat -> string, n: nat)
    requires n < |sections|
    ensures ChunksUpTo(sections, source, splitter, freshIds, n + 1)
      == ChunksUpTo(sections, source, splitter, freshIds, n)
         + SectionChunks(sections[n], source, splitter, freshIds, |ChunksUpTo(sections, source, splitter, freshIds, n)|)
  {
  }

  /** The whole function: join, section, then chunk with one id drawn per chunk. */
  method ProcessDocumentsWithMetadata(documents: seq<Document>, splitter: string -> seq<string>, freshIds: nat -> string)
    returns (chunks: seq<Document>)
    ensures chunks == Process(documents, splitter, freshIds)
  {
    var raw := Join(DocContents(documents), "\n\n");
    var sections := SplitIntoSections(raw);
    var source := if documents == [] then UnknownSource else MetaGet(documents[0], "file_name", UnknownSource);
    chunks := ChunkSections(sections, source, splitter, freshIds);
  }

  /** A chunk tagged with a clean section title, the source file twice, and the given id. */
  predicate Tagged(d: Document, source: string, id: string) {
    && "section" in d.metadata && |d.metadata["section"]| <= TitleLimit && '\n' !in d.metadata["section"]
    && "source_doc" in d.metadata && d.metadata["source_doc"] == source
    && "file_name" in d.metadata && d.metadata["file_name"] == source
    && "id" in d.metadata && d.metadata["id"] == id
  }

  lemma MetadataTagged(content: string, title: string, source: string, id: string)
    requires |title| <= TitleLimit && '\n' !in title
    ensures Tagged(Document(content, ChunkMetadata(title, source, id)), source, id)
  {
    var m := ChunkMetadata(title, source, id);
    assert m["section"] == title;
    assert m["source_doc"] == source;
    assert m["file_name"] == source;
    assert m["id"] == id;
  }

  /** A run of chunks, each tagged with the id drawn at its position counted from `base`. */
  predicate AllTagged(docs: seq<Document>, source: string, freshIds: nat -> string, base: nat) {
    forall k :: 0 <= k < |docs| ==> Tagged(docs[k], source, freshIds(base + k))
  }

  lemma {:induction false} PieceChunksTagged(pieces: seq<string>, title: string, source: string, freshIds: nat -> string, base: nat, n: nat)
    requires n <= |pieces|
    requires |title| <= TitleLimit && '\n' !in title
    ensures AllTagged(PieceChunks(pieces, title, source, freshIds, base, n), source, freshIds, base)
  {
    if n > 0 {
      var prev := PieceChunks(pieces, title, source, freshIds, base, n - 1);
      var doc := Document(pieces[n - 1], ChunkMetadata(title, source, freshIds(base + n - 1)));
      PieceChunksTagged(pieces, title, source, freshIds, base, n - 1);
      MetadataTagged(pieces[n - 1], title, source, freshIds(base + n - 1));
      TaggedConcat(prev, [doc], source, freshIds, base, base + |prev|, PieceChunks(pieces, title, source, freshIds, base, n));
    }
  }

  lemma SectionChunksTagged(sec: Section, source: string, splitter: string -> seq<string>, freshIds: nat -> string, base: nat)
    ensures AllTagged(SectionChunks(sec, source, splitter, freshIds, base), source, freshIds, base)
  {
    var title := CleanTitle(sec.title);
    var pieces := splitter(sec.content);
    if Strip(sec.content) != [] {
      if pieces == [] {
        MetadataTagged(Strip(sec.content), title, source, freshIds(base));
      } else {
        PieceChunksTagged(pieces, title, source, freshIds, base, |pieces|);
      }
    }
  }

  /** Tagged runs of chunks whose ids follow on from each other concatenate into one tagged run. */
  lemma TaggedConcat(prev: seq<Document>, last: seq<Document>, source: string, freshIds: nat -> string, base: nat, mid: nat,
                     whole: seq<Document>)
    requires mid == base + |prev| && whole == prev + last
    requires AllTagged(prev, source, freshIds, base)
    requires AllTagged(last, source, freshIds, mid)
    ensures AllTagged(whole, source, freshIds, base)
  {
    forall k | |prev| <= k < |prev + last|
      ensures Tagged((prev + last)[k], source, freshIds(base + k))
    {
      var j := k - |prev|;
      assert (prev + last)[k] == last[j];
      assert base + |prev| + j == base + k;
    }
  }

  lemma {:induction false} ChunksTagged(sections: seq<Section>, source: string, splitter: string -> seq<string>, freshIds: nat -> string, n: nat)
    requires n <= |sections|
    ensures AllTagged(ChunksUpTo(sections, source, splitter, freshIds, n), source, freshIds, 0)
  {
    if n > 0 {
      var prev := ChunksUpTo(sections, source, splitter, freshIds, n - 1);
      var last := SectionChunks(sections[n - 1], source, splitter, freshIds, |prev|);
      ChunksTagged(sections, source, splitter, freshIds, n - 1);
      SectionChunksTagged(sections[n - 1], source, splitter, freshIds, |prev|);
      TaggedConcat(prev, last, source, freshIds, 0, |prev|, ChunksUpTo(sections, source, splitter, freshIds, n));
    }
  }

  predicate DistinctIds(docs: seq<Document>)
    requires Retrieval.AllHaveIds(docs)
  {
    forall a, b :: 0 <= a < b < |docs| ==> docs[a].metadata["id"] != docs[b].metadata["id"]
  }

  /**
   * Every chunk carries its section title (one line, at most 200 characters),
   * the first document's file name as both `source_doc` and `file_name`, and the
   * id drawn for it; so every chunk has an id, and the ids are distinct when the
   * id source never repeats.
   */
  lemma ProcessedChunksTagged(documents: seq<Document>, splitter: string -> seq<string>, freshIds: nat -> string)
    ensures AllTagged(Process(documents, splitter, freshIds), SourceFile(documents), freshIds, 0)
    ensures Retrieval.AllHaveIds(Process(documents, splitter, freshIds))
    ensures (forall a, b :: a != b ==> freshIds(a) != freshIds(b)) ==>
      DistinctIds(Process(documents, splitter, freshIds))
  {
    var sections := Sections(RawText(documents));
    ChunksTagged(sections, SourceFile(documents), splitter, freshIds, |sections|);
    TaggedHaveIds(Process(documents, splitter, freshIds), SourceFile(documents), freshIds);
  }

  lemma TaggedHaveIds(chunks: seq<Document>, source: string, freshIds: nat -> string)
    requires AllTagged(chunks, source, freshIds, 0)
    ensures Retrieval.AllHaveIds(chunks)
    ensures (forall a, b :: a != b ==> freshIds(a) != freshIds(b)) ==> DistinctIds(chunks)
  {
    assert forall k :: 0 <= k < |chunks| ==> chunks[k].metadata["id"] == freshIds(0 + k);
  }

  /** No documents, no chunks. */
  lemma EmptyInputNoChunks(splitter: string -> seq<string>, freshIds: nat -> string)
    ensures Process([], splitter, freshIds) == []
  {
    assert RawText([]) == "";
    assert Split("", "\n") == [""];
    assert Split("", "\n\n") == [""];
    assert Headers([""]) == [];
    assert FallbackSections("") == [];
    assert Sections("") == [Section(FullDocumentTitle, "")];
  }
}
