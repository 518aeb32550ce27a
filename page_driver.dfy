/**
 * chunking/chunker.py, the driver side: chunk_pages walks the pages with a
 * carryover, a global character position and the next chunk id, then backfills
 * total_chunks and builds the summary; format_chunks_for_output prints the
 * chunks with their headers.
 */
module PageDriver {
  import opened Text
  import opened Sentences
  import opened Metadata
  import opened Chunker

  /** One entry of the page list: its normalized_text and its page_number. */
  datatype Page = Page(text: string, pageNumber: int)

  /** The accumulators of chunk_pages. */
  datatype RunState = RunState(
    chunks: seq<string>,
    metadata: seq<ChunkMetadata>,
    chunkId: int,
    position: int,
    carryover: string)

  /** Before the first page: no chunks, ids start at 1, position 0, no carryover. */
  function StartRun(): RunState
  {
    RunState([], [], 1, 0, "")
  }

  /** A page whose text is empty or only whitespace is skipped. */
  predicate IsBlank(text: string)
  {
    Strip(text) == ""
  }

  /**
   * One iteration of the page loop: a blank page changes nothing; any other page
   * is chunked with the carryover glued in front (no separator), at the global
   * position moved back by the carryover's length, and then the position moves
   * on by the page's own length and the id by the number of chunks.
   */
  function PageStep(chunk: PageChunker, st: RunState, p: Page): RunState
  {
    if IsBlank(p.text) then st
    else Advance(st, p, chunk(st.carryover + p.text, p.pageNumber, st.chunkId, st.position - |st.carryover|))
  }

  /** The per-page chunker the loop calls, on (text, page number, first chunk id, global start). */
  type PageChunker = (string, int, int, int) -> PageResult

  /** _chunk_text under the configuration. */
  function Chunking(cfg: Config): PageChunker
  {
    (text: string, page: int, id: int, start: int) => PageChunks(cfg, text, page, id, start)
  }

  /** The accumulators after a page with text was chunked into `r`. */
  function Advance(st: RunState, p: Page, r: PageResult): RunState
  {
    RunState(st.chunks + r.chunks, st.metadata + r.metadata, st.chunkId + |r.chunks|, st.position + |p.text|, r.carryoverText)
  }

  /** The accumulators after the loop has consumed `pages`. */
  function RunAfter(chunk: PageChunker, pages: seq<Page>): RunState
  {
    if pages == [] then StartRun() else PageStep(chunk, RunAfter(chunk, pages[..|pages| - 1]), pages[|pages| - 1])
  }

  /** Every record with total_chunks set to `total`, everything else kept. */
  function WithTotal(metadata: seq<ChunkMetadata>, total: int): (r: seq<ChunkMetadata>)
    ensures |r| == |metadata|
    ensures forall k :: 0 <= k < |r| ==> r[k] == metadata[k].(totalChunks := total)
  {
    seq(|metadata|, k requires 0 <= k < |metadata| => metadata[k].(totalChunks := total))
  }

  /** The sum of the records' token counts. */
  function SumTokens(metadata: seq<ChunkMetadata>): int
  {
    if metadata == [] then 0 else SumTokens(metadata[..|metadata| - 1]) + metadata[|metadata| - 1].tokenCount
  }

  /** The sum of the records' text lengths. */
  function SumLengths(metadata: seq<ChunkMetadata>): int
  {
    if metadata == [] then 0 else SumLengths(metadata[..|metadata| - 1]) + metadata[|metadata| - 1].textLength
  }

  /** What chunk_pages returns. */
  datatype RunResult = RunResult(chunks: seq<string>, metadata: seq<ChunkMetadata>, summary: ChunkingSummary)

  /** chunk_pages as a function of its inputs. */
  function ChunkRun(cfg: Config, pages: seq<Page>): RunResult
  {
    var st := RunAfter(Chunking(cfg), pages);
    var n := |st.chunks|;
    var metadata := WithTotal(st.metadata, n);
    RunResult(st.chunks, metadata,
      CreateChunkingSummary(n, SumTokens(metadata), SumLengths(metadata), cfg.chunkSize, cfg.overlapSize, |pages|))
  }

  // ---------------------------------------------------------------------------
  // chunk_pages

  /** chunk_pages: the page loop, the total_chunks backfill, the two sums and the summary. */
  method ChunkPages(cfg: Config, pages: seq<Page>) returns (res: RunResult)
    ensures res == ChunkRun(cfg, pages)
  {
    ghost var chunk := Chunking(cfg);
    ChunkingImplements(cfg);
    var allChunks: seq<string> := [];
    var chunkMetadata: seq<ChunkMetadata> := [];
    var chunkId := 1;
    var globalCharPosition := 0;
    var carryoverText := "";
    var i := 0;
    while i < |pages|
      invariant 0 <= i <= |pages|
      invariant RunState(allChunks, chunkMetadata, chunkId, globalCharPosition, carryoverText) == RunAfter(chunk, pages[..i])
    {
      allChunks, chunkMetadata, chunkId, globalCharPosition, carryoverText :=
        PagePass(cfg, chunk, pages, i, allChunks, chunkMetadata, chunkId, globalCharPosition, carryoverText);
      i := i + 1;
    }
    assert pages[..i] == pages;

    var totalChunks := |allChunks|;
    chunkMetadata := SetTotalChunks(chunkMetadata, totalChunks);
    var totalTokens := SumTokens(chunkMetadata);
    var totalCharacters := SumLengths(chunkMetadata);
    var summary := CreateChunkingSummary(totalChunks, totalTokens, totalCharacters, cfg.chunkSize, cfg.overlapSize, |pages|);
    res := RunResult(allChunks, chunkMetadata, summary);
  }

  /**
   * One pass of the page loop: a page with text is chunked after the
   * carryover, a blank page is skipped. `chunk` is the page loop's chunker,
   * which _chunk_text under `cfg` implements.
   */
  method PagePass(cfg: Config, ghost chunk: PageChunker, pages: seq<Page>, i: nat, allChunks: seq<string>, chunkMetadata: seq<ChunkMetadata>,
                  chunkId: int, globalCharPosition: int, carryoverText: string)
    returns (allChunks': seq<string>, chunkMetadata': seq<ChunkMetadata>, chunkId': int, globalCharPosition': int, carryoverText': string)
    requires Implements(cfg, chunk) && i < |pages|
    requires RunState(allChunks, chunkMetadata, chunkId, globalCharPosition, carryoverText) == RunAfter(chunk, pages[..i])
    ensures RunState(allChunks', chunkMetadata', chunkId', globalCharPosition', carryoverText') == RunAfter(chunk, pages[..i + 1])
  {
    if Strip(pages[i].text) != "" {
      var combinedText := carryoverText + pages[i].text;
      var pageResult := ChunkPage(cfg, chunk, combinedText, pages[i].pageNumber, chunkId, globalCharPosition - |carryoverText|);
      PageLoopChunked(chunk, pages, i, allChunks, chunkMetadata, chunkId, globalCharPosition, carryoverText, pageResult);
      allChunks' := allChunks + pageResult.chunks;
      chunkMetadata' := chunkMetadata + pageResult.metadata;
      chunkId' := chunkId + |pageResult.chunks|;
      globalCharPosition' := globalCharPosition + |pages[i].text|;
      carryoverText' := pageResult.carryoverText;
    } else {
      PageLoopBlank(chunk, pages, i);
      allChunks', chunkMetadata', chunkId', globalCharPosition', carryoverText' :=
        allChunks, chunkMetadata, chunkId, globalCharPosition, carryoverText;
    }
  }

  /** _chunk_text on one page's text, its result stated through the page loop's chunker. */
  method ChunkPage(cfg: Config, ghost chunk: PageChunker, text: string, page: int, id: int, start: int) returns (r: PageResult)
    requires Implements(cfg, chunk)
    ensures r == chunk(text, page, id, start)
  {
    r := ChunkText(cfg, text, page, id, start);
  }

  /** The total_chunks backfill: every record's total_chunks set to `total`, in place. */
  method SetTotalChunks(metadata: seq<ChunkMetadata>, total: int) returns (r: seq<ChunkMetadata>)
    ensures r == WithTotal(metadata, total)
  {
    r := metadata;
    var j := 0;
    while j < |r|
      invariant 0 <= j <= |r| == |metadata|
      invariant r == WithTotal(metadata[..j], total) + metadata[j..]
    {
      WithTotalStep(metadata, j, total);
      r := r[j := r[j].(totalChunks := total)];
      j := j + 1;
    }
    assert metadata[..j] == metadata && metadata[j..] == [];
  }

  /** One pass of the page loop, as the method performs it. */
  lemma PageLoopStep(chunk: PageChunker, pages: seq<Page>, i: nat)
    requires i < |pages|
    ensures RunAfter(chunk, pages[..i + 1]) == PageStep(chunk, RunAfter(chunk, pages[..i]), pages[i])
  {
    assert pages[..i + 1][..i] == pages[..i];
  }

  /** A pass of the page loop over a page with text, field by field as the method performs it. */
  lemma PageLoopChunked(chunk: PageChunker, pages: seq<Page>, i: nat, allChunks: seq<string>, chunkMetadata: seq<ChunkMetadata>,
                        chunkId: int, globalCharPosition: int, carryoverText: string, r: PageResult)
    requires i < |pages|
    requires RunState(allChunks, chunkMetadata, chunkId, globalCharPosition, carryoverText) == RunAfter(chunk, pages[..i])
    requires !IsBlank(pages[i].text)
    requires r == chunk(carryoverText + pages[i].text, pages[i].pageNumber, chunkId, globalCharPosition - |carryoverText|)
    ensures RunState(allChunks + r.chunks, chunkMetadata + r.metadata, chunkId + |r.chunks|, globalCharPosition + |pages[i].text|, r.carryoverText)
            == RunAfter(chunk, pages[..i + 1])
  {
    var st := RunState(allChunks, chunkMetadata, chunkId, globalCharPosition, carryoverText);
    PageLoopStep(chunk, pages, i);
    PageStepChunked(chunk, st, pages[i], r);
  }

  lemma PageStepChunked(chunk: PageChunker, st: RunState, p: Page, r: PageResult)
    requires !IsBlank(p.text)
    requires r == chunk(st.carryover + p.text, p.pageNumber, st.chunkId, st.position - |st.carryover|)
    ensures PageStep(chunk, st, p)
            == RunState(st.chunks + r.chunks, st.metadata + r.metadata, st.chunkId + |r.chunks|, st.position + |p.text|, r.carryoverText)
  {
  }

  lemma PageStepBlank(chunk: PageChunker, st: RunState, p: Page)
    requires IsBlank(p.text)
    ensures PageStep(chunk, st, p) == st
  {
  }

  /** A pass of the page loop over a blank page. */
  lemma PageLoopBlank(chunk: PageChunker, pages: seq<Page>, i: nat)
    requires i < |pages| && IsBlank(pages[i].text)
    ensures RunAfter(chunk, pages[..i + 1]) == RunAfter(chunk, pages[..i])
  {
    PageLoopStep(chunk, pages, i);
  }

  /** One pass of the total_chunks backfill. */
  lemma WithTotalStep(metadata: seq<ChunkMetadata>, j: nat, total: int)
    requires j < |metadata|
    ensures (WithTotal(metadata[..j], total) + metadata[j..])[j := metadata[j].(totalChunks := total)]
            == WithTotal(metadata[..j + 1], total) + metadata[j + 1..]
  {
  }


  /** The page loop seen from the end: the last page is one more step. */
  lemma RunAfterSnoc(chunk: PageChunker, pages: seq<Page>, p: Page)
    ensures RunAfter(chunk, pages + [p]) == PageStep(chunk, RunAfter(chunk, pages), p)
  {
    assert (pages + [p])[..|pages|] == pages;
  }

  // ---------------------------------------------------------------------------
  // Properties of a whole run

  /** The pages that are not blank, in order. */
  function NonBlank(pages: seq<Page>): seq<Page>
  {
    if pages == [] then []
    else if IsBlank(pages[|pages| - 1].text) then NonBlank(pages[..|pages| - 1])
    else NonBlank(pages[..|pages| - 1]) + [pages[|pages| - 1]]
  }

  /** Blank pages leave no trace: the run over all pages is the run over the others. */
  lemma {:induction false} RunSkipsBlank(chunk: PageChunker, pages: seq<Page>)
    ensures RunAfter(chunk, pages) == RunAfter(chunk, NonBlank(pages))
  {
    if pages != [] {
      var q := pages[..|pages| - 1];
      var p := pages[|pages| - 1];
      assert pages == q + [p];
      RunAfterSnoc(chunk, q, p);
      RunSkipsBlank(chunk, q);
      if IsBlank(p.text) {
        PageStepBlank(chunk, RunAfter(chunk, q), p);
      } else {
        RunAfterSnoc(chunk, NonBlank(q), p);
      }
    }
  }

  /** A run in which every page is blank (in particular, no pages) has no chunks and zero totals. */
  lemma BlankRun(cfg: Config, pages: seq<Page>)
    requires forall k :: 0 <= k < |pages| ==> IsBlank(pages[k].text)
    ensures ChunkRun(cfg, pages).chunks == [] && ChunkRun(cfg, pages).metadata == []
    ensures ChunkRun(cfg, pages).summary == CreateChunkingSummary(0, 0, 0, cfg.chunkSize, cfg.overlapSize, |pages|)
  {
    RunSkipsBlank(Chunking(cfg), pages);
    AllBlankFiltered(pages);
  }

  lemma {:induction false} AllBlankFiltered(pages: seq<Page>)
    requires forall k :: 0 <= k < |pages| ==> IsBlank(pages[k].text)
    ensures NonBlank(pages) == []
  {
    if pages != [] {
      AllBlankFiltered(pages[..|pages| - 1]);
    }
  }

  /** The total length of the non-blank pages' texts. */
  function TextLength(pages: seq<Page>): int
  {
    if pages == [] then 0
    else if IsBlank(pages[|pages| - 1].text) then TextLength(pages[..|pages| - 1])
    else TextLength(pages[..|pages| - 1]) + |pages[|pages| - 1].text|
  }

  /** The global position after a run is the length of the non-blank pages' texts (the carryover is not counted twice). */
  lemma {:induction false} RunPosition(chunk: PageChunker, pages: seq<Page>)
    ensures RunAfter(chunk, pages).position == TextLength(pages)
  {
    if pages != [] {
      var q := pages[..|pages| - 1];
      var p := pages[|pages| - 1];
      assert pages == q + [p];
      RunAfterSnoc(chunk, q, p);
      RunPosition(chunk, q);
      var st := RunAfter(chunk, q);
      if IsBlank(p.text) {
        PageStepBlank(chunk, st, p);
      } else {
        PageStepChunked(chunk, st, p, chunk(st.carryover + p.text, p.pageNumber, st.chunkId, st.position - |st.carryover|));
      }
    }
  }

  /**
   * Ids over a run: one record per chunk, the k-th with chunk_id k + 1 and
   * chunk_index k, total_chunks not yet filled in, and the chunk's length; the
   * next id is one past the number of chunks.
   */
  ghost predicate RunIds(st: RunState)
  {
    && |st.metadata| == |st.chunks|
    && st.chunkId == |st.chunks| + 1
    && forall k :: 0 <= k < |st.metadata| ==>
         && st.metadata[k].chunkId == k + 1
         && st.metadata[k].chunkIndex == k
         && st.metadata[k].totalChunks == 0
         && st.metadata[k].textLength == |st.chunks[k]|
  }

  /** One record per chunk, numbered from `id`, total_chunks left at 0, text_length the chunk's length. */
  ghost predicate NumberedFrom(id: int, r: PageResult)
  {
    && |r.metadata| == |r.chunks|
    && forall k :: 0 <= k < |r.chunks| ==>
         && r.metadata[k].chunkId == id + k
         && r.metadata[k].chunkIndex == id - 1 + k
         && r.metadata[k].totalChunks == 0
         && r.metadata[k].textLength == |r.chunks[k]|
  }

  /** A chunker whose every result is numbered from the id it was given. */
  ghost predicate Numbers(chunk: PageChunker)
  {
    forall text, page, id, start :: NumberedFrom(id, chunk(text, page, id, start))
  }

  /** `chunk` gives what _chunk_text under `cfg` gives, on every input. */
  ghost predicate Implements(cfg: Config, chunk: PageChunker)
  {
    forall text, page, id, start {:trigger PageChunks(cfg, text, page, id, start)}
      :: chunk(text, page, id, start) == PageChunks(cfg, text, page, id, start)
  }

  lemma ChunkingImplements(cfg: Config)
    ensures Implements(cfg, Chunking(cfg))
  {
    forall text, page, id, start
      ensures Chunking(cfg)(text, page, id, start) == PageChunks(cfg, text, page, id, start)
    {
    }
  }

  /** _chunk_text numbers its chunks from the id it is given. */
  lemma ChunkingNumbers(cfg: Config)
    ensures Numbers(Chunking(cfg))
  {
    forall text, page, id, start
      ensures NumberedFrom(id, Chunking(cfg)(text, page, id, start))
    {
      PageChunksRecords(cfg, text, page, id, start);
    }
  }

  lemma {:induction false} RunAfterIds(chunk: PageChunker, pages: seq<Page>)
    requires Numbers(chunk)
    ensures RunIds(RunAfter(chunk, pages))
  {
    if pages != [] {
      var q := pages[..|pages| - 1];
      var p := pages[|pages| - 1];
      assert pages == q + [p];
      RunAfterSnoc(chunk, q, p);
      RunAfterIds(chunk, q);
      var st := RunAfter(chunk, q);
      if IsBlank(p.text) {
        PageStepBlank(chunk, st, p);
      } else {
        var r := chunk(st.carryover + p.text, p.pageNumber, st.chunkId, st.position - |st.carryover|);
        PageStepChunked(chunk, st, p, r);
        StepIds(st, r, st.position + |p.text|);
      }
    }
  }

  lemma StepIds(st: RunState, r: PageResult, position: int)
    requires RunIds(st) && NumberedFrom(st.chunkId, r)
    ensures RunIds(RunState(st.chunks + r.chunks, st.metadata + r.metadata, st.chunkId + |r.chunks|, position, r.carryoverText))
  {
    var chunks := st.chunks + r.chunks;
    var metadata := st.metadata + r.metadata;
    forall k | 0 <= k < |metadata|
      ensures metadata[k].chunkId == k + 1 && metadata[k].chunkIndex == k && metadata[k].totalChunks == 0
      ensures metadata[k].textLength == |chunks[k]|
    {
      if k >= |st.metadata| {
        assert metadata[k] == r.metadata[k - |st.metadata|];
        assert chunks[k] == r.chunks[k - |st.chunks|];
      }
    }
  }

  /** Summing the records' text lengths is measuring the concatenated chunks. */
  lemma {:induction false} SumLengthsConcat(metadata: seq<ChunkMetadata>, chunks: seq<string>)
    requires |metadata| == |chunks|
    requires forall k :: 0 <= k < |metadata| ==> metadata[k].textLength == |chunks[k]|
    ensures SumLengths(metadata) == |Concat(chunks)|
  {
    if metadata != [] {
      SumLengthsConcat(metadata[..|metadata| - 1], chunks[..|chunks| - 1]);
    }
  }

  /**
   * What chunk_pages returns: ids 1..n in order with chunk_index one less, every
   * record's total_chunks equal to the number of chunks, and a summary whose
   * total_chunks is that number, whose total_characters is the length of all
   * chunks together and whose source_pages counts every page, blank or not.
   */
  lemma ChunkRunIds(cfg: Config, pages: seq<Page>)
    ensures var res := ChunkRun(cfg, pages);
      && |res.metadata| == |res.chunks|
      && (forall k :: 0 <= k < |res.metadata| ==>
            && res.metadata[k].chunkId == k + 1
            && res.metadata[k].chunkIndex == k
            && res.metadata[k].totalChunks == |res.chunks|
            && res.metadata[k].textLength == |res.chunks[k]|)
      && res.summary.totalChunks == |res.chunks|
      && res.summary.totalTokens == SumTokens(res.metadata)
      && res.summary.totalCharacters == |Concat(res.chunks)|
      && res.summary.sourcePages == |pages|
  {
    ChunkingNumbers(cfg);
    RunAfterIds(Chunking(cfg), pages);
    var st := RunAfter(Chunking(cfg), pages);
    var md := WithTotal(st.metadata, |st.chunks|);
    SumLengthsConcat(md, st.chunks);
  }

  // ---------------------------------------------------------------------------
  // format_chunks_for_output

  /** The four output lines of one chunk: header, info line, text, and an empty line. */
  function ChunkLines(chunk: string, m: ChunkMetadata): seq<string>
  {
    [ChunkHeader(m.chunkId), InfoLine(m), chunk, ""]
  }

  /** The output lines of the first n (chunk, record) pairs. */
  function OutputLines(chunks: seq<string>, metadata: seq<ChunkMetadata>, n: nat): seq<string>
    requires n <= |chunks| && n <= |metadata|
  {
    if n == 0 then [] else OutputLines(chunks, metadata, n - 1) + ChunkLines(chunks[n - 1], metadata[n - 1])
  }

  /** How many pairs zip() yields. */
  function Paired(chunks: seq<string>, metadata: seq<ChunkMetadata>): nat
  {
    if |chunks| <= |metadata| then |chunks| else |metadata|
  }

  /** format_chunks_for_output: four lines per pair (zip stops at the shorter list), joined with newlines. */
  method FormatChunksForOutput(chunks: seq<string>, metadata: seq<ChunkMetadata>) returns (out: string)
    ensures out == Join(OutputLines(chunks, metadata, Paired(chunks, metadata)), "\n")
  {
    var output: seq<string> := [];
    var n := Paired(chunks, metadata);
    var i := 0;
    while i < n
      invariant 0 <= i <= n
      invariant output == OutputLines(chunks, metadata, i)
    {
      OutputLinesStep(chunks, metadata, i);
      var header := ChunkHeader(metadata[i].chunkId);
      var pageInfo := InfoLine(metadata[i]);
      output := output + [header];
      output := output + [pageInfo];
      output := output + [chunks[i]];
      output := output + [""];
      i := i + 1;
    }
    out := Join(output, "\n");
  }

  /** One pass of the output loop, line by line as the method appends them. */
  lemma OutputLinesStep(chunks: seq<string>, metadata: seq<ChunkMetadata>, i: nat)
    requires i < |chunks| && i < |metadata|
    ensures OutputLines(chunks, metadata, i + 1)
      == OutputLines(chunks, metadata, i) + [ChunkHeader(metadata[i].chunkId)] + [InfoLine(metadata[i])] + [chunks[i]] + [""]
  {
  }

  /** The four-line groups of the first n pairs, in order. */
  function LineGroups(chunks: seq<string>, metadata: seq<ChunkMetadata>, n: nat): seq<seq<string>>
    requires n <= |chunks| && n <= |metadata|
  {
    if n == 0 then [] else LineGroups(chunks, metadata, n - 1) + [ChunkLines(chunks[n - 1], metadata[n - 1])]
  }

  /** Group k sits at positions 4k..4k+3 of `lines`, and there is nothing else. */
  predicate Grouped<T(==)>(lines: seq<T>, groups: seq<seq<T>>)
  {
    && |lines| == 4 * |groups|
    && forall k :: 0 <= k < |groups| ==> lines[4 * k..4 * k + 4] == groups[k]
  }

  /** The output lines are the pairs' four-line groups, one after another. */
  lemma {:induction false} OutputLinesLayout(chunks: seq<string>, metadata: seq<ChunkMetadata>, n: nat)
    requires n <= |chunks| && n <= |metadata|
    ensures Grouped(OutputLines(chunks, metadata, n), LineGroups(chunks, metadata, n))
  {
    if n > 0 {
      OutputLinesLayout(chunks, metadata, n - 1);
      GroupedAppend(OutputLines(chunks, metadata, n - 1), LineGroups(chunks, metadata, n - 1), ChunkLines(chunks[n - 1], metadata[n - 1]));
    }
  }

  /** Four more lines make one more group. */
  lemma GroupedAppend<T>(lines: seq<T>, groups: seq<seq<T>>, g: seq<T>)
    requires Grouped(lines, groups) && |g| == 4
    ensures Grouped(lines + g, groups + [g])
  {
    var m := |groups|;
    forall k | 0 <= k < m + 1
      ensures (lines + g)[4 * k..4 * k + 4] == (groups + [g])[k]
    {
      if k < m {
        SliceOfPrefix(lines, g, 4 * k, 4 * k + 4);
      } else {
        SliceOfSuffix(lines, g);
      }
    }
  }

  lemma SliceOfPrefix<T>(a: seq<T>, b: seq<T>, i: nat, j: nat)
    requires i <= j <= |a|
    ensures (a + b)[i..j] == a[i..j]
  {
  }

  lemma SliceOfSuffix<T>(a: seq<T>, b: seq<T>)
    ensures (a + b)[|a|..|a| + |b|] == b
  {
  }

  /** Every line followed by the separator. */
  function Terminated(lines: seq<string>, sep: string): string
  {
    if lines == [] then "" else lines[0] + sep + Terminated(lines[1..], sep)
  }

  lemma {:induction false} JoinTerminated(lines: seq<string>, sep: string)
    requires lines != []
    ensures Join(lines, sep) + sep == Terminated(lines, sep)
  {
    if |lines| > 1 {
      JoinTerminated(lines[1..], sep);
    }
  }

  lemma {:induction false} TerminatedAppend(a: seq<string>, b: seq<string>, sep: string)
    ensures Terminated(a + b, sep) == Terminated(a, sep) + Terminated(b, sep)
  {
    if a == [] {
      assert a + b == b;
    } else {
      assert (a + b)[1..] == a[1..] + b;
      TerminatedAppend(a[1..], b, sep);
    }
  }

  /** The blocks format_chunk_for_output makes for the first n pairs, one after another. */
  function Blocks(chunks: seq<string>, metadata: seq<ChunkMetadata>, n: nat): string
    requires n <= |chunks| && n <= |metadata|
  {
    if n == 0 then ""
    else Blocks(chunks, metadata, n - 1) + FormatChunkForOutput(metadata[n - 1].chunkId, chunks[n - 1], metadata[n - 1])
  }

  /**
   * The two formatters agree: the joined output of format_chunks_for_output,
   * with the newline its last line lacks, is the blocks of
   * format_chunk_for_output put together.
   */
  lemma OutputIsBlocks(chunks: seq<string>, metadata: seq<ChunkMetadata>, n: nat)
    requires 0 < n <= |chunks| && n <= |metadata|
    ensures Join(OutputLines(chunks, metadata, n), "\n") + "\n" == Blocks(chunks, metadata, n)
  {
    TerminatedIsBlocks(chunks, metadata, n);
    JoinTerminated(OutputLines(chunks, metadata, n), "\n");
    assert Terminated(OutputLines(chunks, metadata, n), "\n") == Rendered(chunks, metadata, n);
    assert BlockText(chunks, metadata, n) == Blocks(chunks, metadata, n);
  }

  /** The output lines of the first n pairs, each ended by a newline. */
  function Rendered(chunks: seq<string>, metadata: seq<ChunkMetadata>, n: nat): string
    requires n <= |chunks| && n <= |metadata|
  {
    Terminated(OutputLines(chunks, metadata, n), "\n")
  }

  /** Blocks under a name of its own, so that the induction below matches it without unfolding. */
  function BlockText(chunks: seq<string>, metadata: seq<ChunkMetadata>, n: nat): string
    requires n <= |chunks| && n <= |metadata|
  {
    Blocks(chunks, metadata, n)
  }

  lemma {:induction false} TerminatedIsBlocks(chunks: seq<string>, metadata: seq<ChunkMetadata>, n: nat)
    requires n <= |chunks| && n <= |metadata|
    ensures Rendered(chunks, metadata, n) == BlockText(chunks, metadata, n)
  {
    if n > 0 {
      TerminatedIsBlocks(chunks, metadata, n - 1);
      RenderedStep(chunks, metadata, n, BlockText(chunks, metadata, n - 1));
      BlockTextStep(chunks, metadata, n);
    }
  }

  /** One more pair adds its format_chunk_for_output block to the blocks. */
  lemma BlockTextStep(chunks: seq<string>, metadata: seq<ChunkMetadata>, n: nat)
    requires 0 < n <= |chunks| && n <= |metadata|
    ensures BlockText(chunks, metadata, n)
         == BlockText(chunks, metadata, n - 1) + FormatChunkForOutput(metadata[n - 1].chunkId, chunks[n - 1], metadata[n - 1])
  {
  }

  /** One more pair adds its format_chunk_for_output block to the rendered lines. */
  lemma RenderedStep(chunks: seq<string>, metadata: seq<ChunkMetadata>, n: nat, before: string)
    requires 0 < n <= |chunks| && n <= |metadata|
    requires Rendered(chunks, metadata, n - 1) == before
    ensures Rendered(chunks, metadata, n) == before + FormatChunkForOutput(metadata[n - 1].chunkId, chunks[n - 1], metadata[n - 1])
  {
    var m := metadata[n - 1];
    var prev := OutputLines(chunks, metadata, n - 1);
    var g := ChunkLines(chunks[n - 1], m);
    assert OutputLines(chunks, metadata, n) == prev + g;
    TerminatedAppend(prev, g, "\n");
    GroupIsBlock(chunks[n - 1], m);
  }

  /** One pair's four lines, each ended by a newline, are its format_chunk_for_output block. */
  lemma GroupIsBlock(chunk: string, m: ChunkMetadata)
    ensures Terminated(ChunkLines(chunk, m), "\n") == FormatChunkForOutput(m.chunkId, chunk, m)
  {
    var g := ChunkLines(chunk, m);
    var nl := "\n";
    assert Terminated(g[3..], nl) == "" + nl by { assert g[3..][1..] == []; }
    assert Terminated(g[2..], nl) == chunk + nl + nl by { assert g[2..][1..] == g[3..]; }
    assert Terminated(g[1..], nl) == InfoLine(m) + nl + (chunk + nl + nl) by { assert g[1..][1..] == g[2..]; }
    assert Terminated(g, nl) == ChunkHeader(m.chunkId) + nl + (InfoLine(m) + nl + (chunk + nl + nl));
  }
}
