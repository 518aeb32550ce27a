/**
 * chunking/chunker.py: the window builder (_chunk_text), the page driver with
 * cross-page carryover (chunk_pages) and the text output (format_chunks_for_output).
 */
module Chunker {
  import opened Text
  import opened Sentences
  import opened Metadata

  /** The defaults of chunking/chunker.py; every operation takes the budgets as parameters. */
  const DefaultChunkSize: int := 1000
  const DefaultOverlapSize: int := 150

  /** What a Chunker instance holds: the two token budgets and its token counter. */
  datatype Config = Config(chunkSize: int, overlapSize: int, count: Counter)

  // ---------------------------------------------------------------------------
  // The window builder as a function of the sentences seen so far

  /**
   * The accumulators of _chunk_text: the chunks and records emitted so far, the
   * chunk being built with its running token count and local start, the next id
   * and index. The last two fields are bookkeeping for the proofs: `cuts` holds,
   * for each emitted chunk, the index of the sentence whose arrival closed it, and
   * `seeds` the text each chunk started from (the first one "", every later one the
   * overlap of the chunk before it).
   */
  datatype Window = Window(
    chunks: seq<string>,
    metadata: seq<ChunkMetadata>,
    current: string,
    tokens: int,
    localStart: int,
    chunkId: int,
    chunkIndex: int,
    cuts: seq<nat>,
    seeds: seq<string>)

  /** The accumulators before the first sentence. */
  function StartWindow(startChunkId: int): Window
  {
    Window([], [], "", 0, 0, startChunkId, startChunkId - 1, [], [""])
  }

  /** The record for the accumulated chunk, as _chunk_text builds it (total_chunks still 0). */
  function Record(page: int, globalStart: int, w: Window): ChunkMetadata
  {
    var text := Strip(w.current);
    CreateChunkMetadata(w.chunkId, text, page, globalStart + w.localStart, globalStart + (w.localStart + |text|),
      w.tokens, w.chunkIndex, 0)
  }

  /** Emitting the accumulator: record it, then reseed with the given overlap and its token count. */
  function Emit(page: int, globalStart: int, w: Window, i: nat, overlap: string, overlapTokens: int): Window
  {
    var text := Strip(w.current);
    var localEnd := w.localStart + |text|;
    Window(w.chunks + [text], w.metadata + [Record(page, globalStart, w)],
      overlap, overlapTokens, localEnd - |overlap|, w.chunkId + 1, w.chunkIndex + 1,
      w.cuts + [i], w.seeds + [overlap])
  }

  /** Appending a sentence to the accumulator, with no separator. */
  function Append(w: Window, sentence: string, sentenceTokens: int): Window
  {
    w.(current := w.current + sentence, tokens := w.tokens + sentenceTokens)
  }

  /**
   * One iteration of the sentence loop: when the accumulator is non-empty and the
   * sentence would push the running count past the budget, emit the stripped
   * accumulator and reseed it with its overlap (recounting its tokens); then
   * append the sentence and add its tokens.
   */
  function Step(cfg: Config, page: int, globalStart: int, w: Window, sentence: string, i: nat): Window
  {
    if w.tokens + cfg.count(sentence) > cfg.chunkSize && w.current != "" then
      var overlap := OverlapText(cfg.count, cfg.overlapSize, w.current);
      Append(Emit(page, globalStart, w, i, overlap, cfg.count(overlap)), sentence, cfg.count(sentence))
    else
      Append(w, sentence, cfg.count(sentence))
  }

  /** The accumulators after the loop has consumed `sentences`. */
  function WindowAfter(cfg: Config, page: int, globalStart: int, startChunkId: int, sentences: seq<string>): Window
  {
    if sentences == [] then StartWindow(startChunkId)
    else
      Step(cfg, page, globalStart, WindowAfter(cfg, page, globalStart, startChunkId, sentences[..|sentences| - 1]),
        sentences[|sentences| - 1], |sentences| - 1)
  }

  /** What _chunk_text returns: the chunks of one (carryover-prefixed) text, their records and the carryover. */
  datatype PageResult = PageResult(chunks: seq<string>, metadata: seq<ChunkMetadata>, carryoverText: string)

  /** The window after the loop, the final chunk if the accumulator is not blank, and the carryover. */
  function Finish(cfg: Config, page: int, globalStart: int, w: Window): PageResult
  {
    var carryover := if w.current != "" then OverlapText(cfg.count, cfg.overlapSize, w.current) else "";
    if Strip(w.current) != "" then
      PageResult(w.chunks + [Strip(w.current)], w.metadata + [Record(page, globalStart, w)], carryover)
    else
      PageResult(w.chunks, w.metadata, carryover)
  }

  /** _chunk_text as a function of its inputs. */
  function PageChunks(cfg: Config, text: string, page: int, startChunkId: int, globalStart: int): PageResult
  {
    Finish(cfg, page, globalStart, WindowAfter(cfg, page, globalStart, startChunkId, SentencesOf(text)))
  }

  // ---------------------------------------------------------------------------
  // Closed forms of the window builder's state

  /** Where the window of chunk k starts among the sentences. */
  function PrevCut(cuts: seq<nat>, k: nat): nat
    requires k <= |cuts|
  {
    if k == 0 then 0 else cuts[k - 1]
  }

  /** The token count an accumulator starts from: 0, or the recount of its overlap seed. */
  function SeedTokens(count: Counter, seeds: seq<string>, k: nat): int
    requires k < |seeds|
  {
    if k == 0 then 0 else count(seeds[k])
  }

  /** The sum of the per-sentence token counts. */
  function SumCounts(count: Counter, sentences: seq<string>): int
  {
    if sentences == [] then 0 else SumCounts(count, sentences[..|sentences| - 1]) + count(sentences[|sentences| - 1])
  }

  /** The local start of chunk k: each chunk starts where the one before it ended, minus the overlap it re-uses. */
  function StartOffset(chunks: seq<string>, seeds: seq<string>, k: nat): int
    requires k <= |chunks| && k < |seeds|
  {
    if k == 0 then 0 else StartOffset(chunks, seeds, k - 1) + |chunks[k - 1]| - |seeds[k]|
  }

  /** The cuts are increasing and inside the sentences; the current window is not empty once a sentence arrived. */
  ghost predicate CutsInside(sentences: seq<string>, w: Window)
  {
    && |w.chunks| == |w.cuts| && |w.seeds| == |w.chunks| + 1 && w.seeds[0] == ""
    && (forall j, k :: 0 <= j < k < |w.cuts| ==> w.cuts[j] < w.cuts[k])
    && (forall k :: 0 <= k < |w.cuts| ==> 0 < w.cuts[k] < |sentences|)
    && PrevCut(w.cuts, |w.cuts|) <= |sentences|
    && (sentences != [] ==> PrevCut(w.cuts, |w.cuts|) < |sentences|)
  }

  /** Every emitted chunk is its seed followed by its window's sentences, glued with no separator. */
  ghost predicate ChunksCover(sentences: seq<string>, w: Window)
    requires CutsInside(sentences, w)
  {
    forall k :: 0 <= k < |w.chunks| ==>
      w.chunks[k] == w.seeds[k] + Concat(sentences[PrevCut(w.cuts, k)..w.cuts[k]])
  }

  /** The accumulator is the current seed followed by the sentences since the last cut. */
  ghost predicate CurrentCovers(sentences: seq<string>, w: Window)
    requires CutsInside(sentences, w)
  {
    w.current == w.seeds[|w.chunks|] + Concat(sentences[PrevCut(w.cuts, |w.cuts|)..])
  }

  /** Chunks, seeds and the accumulator are stripped; chunks are not empty, nor is the accumulator once a sentence arrived. */
  ghost predicate AllStripped(sentences: seq<string>, w: Window)
  {
    && (forall k :: 0 <= k < |w.chunks| ==> w.chunks[k] != "" && Trimmed(w.chunks[k]))
    && (forall k :: 0 <= k < |w.seeds| ==> Trimmed(w.seeds[k]))
    && Trimmed(w.current)
    && (sentences != [] <==> w.current != "")
  }

  /**
   * How the emitted chunks and the accumulator cover the sentences: the windows
   * between consecutive cuts are non-empty, every chunk is its seed followed by
   * its window's sentences, and everything is stripped.
   */
  ghost predicate Covers(sentences: seq<string>, w: Window)
  {
    CutsInside(sentences, w) && ChunksCover(sentences, w) && CurrentCovers(sentences, w) && AllStripped(sentences, w)
  }

  /** Every seed after the first is the overlap of the chunk before it. */
  ghost predicate SeedsAreOverlaps(cfg: Config, w: Window)
  {
    && |w.seeds| == |w.chunks| + 1
    && forall k :: 0 <= k < |w.chunks| ==> w.seeds[k + 1] == OverlapText(cfg.count, cfg.overlapSize, w.chunks[k])
  }

  /** The token count of chunk k: its seed's recount plus the counts of its window's sentences. */
  function ChunkTokens(cfg: Config, sentences: seq<string>, w: Window, k: nat): int
    requires CutsInside(sentences, w) && k < |w.chunks|
  {
    SeedTokens(cfg.count, w.seeds, k) + SumCounts(cfg.count, sentences[PrevCut(w.cuts, k)..w.cuts[k]])
  }

  /** The record of chunk k in closed form: id and index from its rank, positions from the offsets, and its token count. */
  function ChunkRecord(page: int, globalStart: int, startChunkId: int, chunks: seq<string>, seeds: seq<string>, k: nat, tokens: int): ChunkMetadata
    requires k < |chunks| && k < |seeds|
  {
    var start := globalStart + StartOffset(chunks, seeds, k);
    CreateChunkMetadata(startChunkId + k, chunks[k], page, start, start + |chunks[k]|, tokens, startChunkId - 1 + k, 0)
  }

  /** Every record emitted so far is the closed-form record of its chunk. */
  ghost predicate RecordsMatch(cfg: Config, page: int, globalStart: int, startChunkId: int, sentences: seq<string>, w: Window)
    requires CutsInside(sentences, w)
  {
    && |w.metadata| == |w.chunks|
    && forall k :: 0 <= k < |w.chunks| ==>
         w.metadata[k] == ChunkRecord(page, globalStart, startChunkId, w.chunks, w.seeds, k, ChunkTokens(cfg, sentences, w, k))
  }

  /** The next id and index, the local start and the running token count agree with their closed forms. */
  ghost predicate CountersMatch(cfg: Config, startChunkId: int, sentences: seq<string>, w: Window)
    requires CutsInside(sentences, w)
  {
    var m := |w.chunks|;
    && w.chunkId == startChunkId + m
    && w.chunkIndex == startChunkId - 1 + m
    && w.localStart == StartOffset(w.chunks, w.seeds, m)
    && w.tokens == SeedTokens(cfg.count, w.seeds, m) + SumCounts(cfg.count, sentences[PrevCut(w.cuts, m)..])
  }

  /**
   * The budget rule: a chunk over the budget holds a single sentence after its
   * seed, and every chunk was closed because the next sentence would have pushed
   * it past the budget; the accumulator is within budget or holds one sentence.
   */
  ghost predicate WithinBudget(cfg: Config, sentences: seq<string>, w: Window)
    requires CutsInside(sentences, w)
  {
    && ClosedWithinBudget(cfg, sentences, w)
    && (w.tokens <= cfg.chunkSize || |sentences| - PrevCut(w.cuts, |w.cuts|) <= 1)
  }

  /** The budget facts of the chunks already closed. */
  ghost predicate ClosedWithinBudget(cfg: Config, sentences: seq<string>, w: Window)
    requires CutsInside(sentences, w)
  {
    forall k :: 0 <= k < |w.chunks| ==>
      && (ChunkTokens(cfg, sentences, w, k) <= cfg.chunkSize || w.cuts[k] - PrevCut(w.cuts, k) == 1)
      && ChunkTokens(cfg, sentences, w, k) + cfg.count(sentences[w.cuts[k]]) > cfg.chunkSize
  }

  /** All the loop invariants of _chunk_text together. */
  ghost predicate WindowInvariant(cfg: Config, page: int, globalStart: int, startChunkId: int, sentences: seq<string>, w: Window)
  {
    && Covers(sentences, w)
    && SeedsAreOverlaps(cfg, w)
    && RecordsMatch(cfg, page, globalStart, startChunkId, sentences, w)
    && CountersMatch(cfg, startChunkId, sentences, w)
    && WithinBudget(cfg, sentences, w)
  }

  // ---------------------------------------------------------------------------
  // The loop invariant is kept by every sentence

  lemma SliceOfAppend(ss: seq<string>, s: string, a: nat, b: nat)
    requires a <= b <= |ss|
    ensures (ss + [s])[a..b] == ss[a..b]
    ensures (ss + [s])[a..] == ss[a..] + [s]
  {
  }

  lemma {:induction false} SumCountsAppend(count: Counter, ss: seq<string>, s: string)
    ensures SumCounts(count, ss + [s]) == SumCounts(count, ss) + count(s)
  {
    assert (ss + [s])[..|ss|] == ss;
  }

  lemma {:induction false} StartOffsetPrefix(chunks: seq<string>, seeds: seq<string>, chunks': seq<string>, seeds': seq<string>, k: nat)
    requires k <= |chunks| <= |chunks'| && chunks == chunks'[..|chunks|]
    requires k < |seeds| <= |seeds'| && seeds == seeds'[..|seeds|]
    ensures StartOffset(chunks', seeds', k) == StartOffset(chunks, seeds, k)
  {
    if k > 0 {
      StartOffsetPrefix(chunks, seeds, chunks', seeds', k - 1);
      assert chunks'[k - 1] == chunks[k - 1] && seeds'[k] == seeds[k];
    }
  }

  /** Appending a sentence without emitting keeps the coverage invariant. */
  lemma AppendCovers(ss: seq<string>, s: string, w: Window, tokens: int)
    requires s != "" && Trimmed(s) && Covers(ss, w)
    ensures Covers(ss + [s], Append(w, s, tokens))
  {
    AppendCuts(ss, s, w, tokens);
    AppendChunks(ss, s, w, tokens);
    AppendCurrent(ss, s, w, tokens);
    TrimmedConcat(w.current, s);
  }

  lemma AppendCuts(ss: seq<string>, s: string, w: Window, tokens: int)
    requires CutsInside(ss, w)
    ensures CutsInside(ss + [s], Append(w, s, tokens))
  {
  }

  lemma AppendChunks(ss: seq<string>, s: string, w: Window, tokens: int)
    requires Covers(ss, w)
    ensures CutsInside(ss + [s], Append(w, s, tokens)) && ChunksCover(ss + [s], Append(w, s, tokens))
  {
    AppendCuts(ss, s, w, tokens);
    forall k | 0 <= k < |w.chunks| ensures (ss + [s])[PrevCut(w.cuts, k)..w.cuts[k]] == ss[PrevCut(w.cuts, k)..w.cuts[k]] {
      SliceOfAppend(ss, s, PrevCut(w.cuts, k), w.cuts[k]);
    }
  }

  lemma AppendCurrent(ss: seq<string>, s: string, w: Window, tokens: int)
    requires CutsInside(ss, w) && CurrentCovers(ss, w)
    ensures CutsInside(ss + [s], Append(w, s, tokens)) && CurrentCovers(ss + [s], Append(w, s, tokens))
  {
    var p := PrevCut(w.cuts, |w.cuts|);
    var seed := w.seeds[|w.chunks|];
    var rest := Concat(ss[p..]);
    assert (ss + [s])[p..] == ss[p..] + [s];
    assert Concat(ss[p..] + [s]) == rest + s by {
      assert (ss[p..] + [s])[..|ss[p..]|] == ss[p..];
    }
    assert seed + rest + s == seed + (rest + s);
  }

  lemma AppendRecords(cfg: Config, page: int, globalStart: int, startChunkId: int, ss: seq<string>, s: string, w: Window, tokens: int)
    requires Covers(ss, w) && RecordsMatch(cfg, page, globalStart, startChunkId, ss, w)
    ensures CutsInside(ss + [s], Append(w, s, tokens))
    ensures RecordsMatch(cfg, page, globalStart, startChunkId, ss + [s], Append(w, s, tokens))
  {
    AppendCuts(ss, s, w, tokens);
    var w' := Append(w, s, tokens);
    forall k | 0 <= k < |w.chunks|
      ensures ChunkTokens(cfg, ss + [s], w', k) == ChunkTokens(cfg, ss, w, k)
    {
      SliceOfAppend(ss, s, PrevCut(w.cuts, k), w.cuts[k]);
    }
  }

  lemma AppendCounters(cfg: Config, startChunkId: int, ss: seq<string>, s: string, w: Window)
    requires CutsInside(ss, w) && CountersMatch(cfg, startChunkId, ss, w)
    ensures CutsInside(ss + [s], Append(w, s, cfg.count(s)))
    ensures CountersMatch(cfg, startChunkId, ss + [s], Append(w, s, cfg.count(s)))
  {
    AppendCuts(ss, s, w, cfg.count(s));
    var p := PrevCut(w.cuts, |w.cuts|);
    var seedTokens := SeedTokens(cfg.count, w.seeds, |w.chunks|);
    assert (ss + [s])[p..] == ss[p..] + [s];
    SumCountsAppend(cfg.count, ss[p..], s);
    assert w.tokens + cfg.count(s) == seedTokens + SumCounts(cfg.count, (ss + [s])[p..]);
  }

  lemma AppendBudget(cfg: Config, startChunkId: int, ss: seq<string>, s: string, w: Window)
    requires CutsInside(ss, w) && AllStripped(ss, w) && CountersMatch(cfg, startChunkId, ss, w) && WithinBudget(cfg, ss, w)
    requires w.tokens + cfg.count(s) <= cfg.chunkSize || w.current == ""
    ensures CutsInside(ss + [s], Append(w, s, cfg.count(s)))
    ensures WithinBudget(cfg, ss + [s], Append(w, s, cfg.count(s)))
  {
    var w' := Append(w, s, cfg.count(s));
    AppendCuts(ss, s, w, cfg.count(s));
    AppendBudgetChunks(cfg, ss, s, w);
    assert w'.cuts == w.cuts && w'.tokens == w.tokens + cfg.count(s);
    if w.tokens + cfg.count(s) > cfg.chunkSize {
      // only the very first sentence arrives at an empty accumulator
      assert ss == [] && w.cuts == [];
      assert |ss + [s]| - PrevCut(w'.cuts, |w'.cuts|) == 1;
    }
  }

  lemma AppendBudgetChunks(cfg: Config, ss: seq<string>, s: string, w: Window)
    requires CutsInside(ss, w) && WithinBudget(cfg, ss, w)
    ensures CutsInside(ss + [s], Append(w, s, cfg.count(s)))
    ensures ClosedWithinBudget(cfg, ss + [s], Append(w, s, cfg.count(s)))
  {
    AppendCuts(ss, s, w, cfg.count(s));
    forall k | 0 <= k < |w.chunks|
      ensures ChunkTokens(cfg, ss + [s], Append(w, s, cfg.count(s)), k) == ChunkTokens(cfg, ss, w, k)
      ensures (ss + [s])[w.cuts[k]] == ss[w.cuts[k]]
    {
      AppendChunkTokens(cfg, ss, s, w, k);
    }
  }

  lemma AppendChunkTokens(cfg: Config, ss: seq<string>, s: string, w: Window, k: nat)
    requires CutsInside(ss, w) && k < |w.chunks|
    ensures CutsInside(ss + [s], Append(w, s, cfg.count(s)))
    ensures ChunkTokens(cfg, ss + [s], Append(w, s, cfg.count(s)), k) == ChunkTokens(cfg, ss, w, k)
  {
    AppendCuts(ss, s, w, cfg.count(s));
    SliceOfAppend(ss, s, PrevCut(w.cuts, k), w.cuts[k]);
  }

  lemma AppendSeeds(cfg: Config, w: Window, s: string, tokens: int)
    requires SeedsAreOverlaps(cfg, w)
    ensures SeedsAreOverlaps(cfg, Append(w, s, tokens))
  {
  }

  /** How the accumulators change when the accumulator is emitted, reseeded and the sentence appended. */
  ghost predicate Emitted(ss: seq<string>, s: string, w: Window, w': Window, overlap: string)
  {
    && w'.chunks == w.chunks + [w.current]
    && w'.seeds == w.seeds + [overlap]
    && w'.cuts == w.cuts + [|ss|]
    && w'.current == overlap + s
    && w'.localStart == w.localStart + |w.current| - |overlap|
    && w'.chunkId == w.chunkId + 1
    && w'.chunkIndex == w.chunkIndex + 1
  }

  lemma EmitIsEmitted(page: int, globalStart: int, ss: seq<string>, s: string, w: Window, overlap: string, overlapTokens: int, tokens: int)
    requires Trimmed(w.current)
    ensures var w' := Append(Emit(page, globalStart, w, |ss|, overlap, overlapTokens), s, tokens);
      && Emitted(ss, s, w, w', overlap)
      && w'.tokens == overlapTokens + tokens
      && w'.metadata == w.metadata + [Record(page, globalStart, w)]
  {
    assert Strip(w.current) == w.current;
  }

  lemma EmitCuts(ss: seq<string>, s: string, w: Window, w': Window, overlap: string)
    requires CutsInside(ss, w) && AllStripped(ss, w) && w.current != "" && Emitted(ss, s, w, w', overlap)
    ensures CutsInside(ss + [s], w')
    ensures forall k :: 0 <= k <= |w.chunks| ==> PrevCut(w'.cuts, k) == PrevCut(w.cuts, k)
    ensures PrevCut(w.cuts, |w.chunks|) < |ss|
  {
    assert ss != [];
    forall k | 0 <= k <= |w.chunks| ensures PrevCut(w'.cuts, k) == PrevCut(w.cuts, k) {
    }
  }

  lemma EmitChunks(ss: seq<string>, s: string, w: Window, w': Window, overlap: string)
    requires Covers(ss, w) && w.current != "" && Emitted(ss, s, w, w', overlap)
    ensures CutsInside(ss + [s], w') && ChunksCover(ss + [s], w')
  {
    EmitCuts(ss, s, w, w', overlap);
    var m := |w.chunks|;
    var p := PrevCut(w.cuts, m);
    forall k | 0 <= k < m + 1
      ensures w'.chunks[k] == w'.seeds[k] + Concat((ss + [s])[PrevCut(w'.cuts, k)..w'.cuts[k]])
    {
      SliceOfAppend(ss, s, PrevCut(w.cuts, k), if k < m then w.cuts[k] else |ss|);
      if k == m {
        assert ss[p..] == ss[p..|ss|];
      }
    }
  }

  lemma EmitCurrent(ss: seq<string>, s: string, w: Window, w': Window, overlap: string)
    requires CutsInside(ss, w) && AllStripped(ss, w) && w.current != "" && Emitted(ss, s, w, w', overlap)
    ensures CutsInside(ss + [s], w') && CurrentCovers(ss + [s], w')
  {
    EmitCuts(ss, s, w, w', overlap);
    assert (ss + [s])[|ss|..] == [s];
    assert Concat([s]) == s by { assert [s][..0] == []; }
  }

  lemma EmitStripped(ss: seq<string>, s: string, w: Window, w': Window, overlap: string)
    requires s != "" && Trimmed(s) && AllStripped(ss, w)
    requires w.current != "" && Trimmed(overlap) && Emitted(ss, s, w, w', overlap)
    ensures AllStripped(ss + [s], w')
  {
    TrimmedConcat(overlap, s);
  }

  lemma EmitCovers(ss: seq<string>, s: string, w: Window, w': Window, overlap: string)
    requires s != "" && Trimmed(s) && Covers(ss, w)
    requires w.current != "" && Trimmed(overlap) && Emitted(ss, s, w, w', overlap)
    ensures Covers(ss + [s], w')
  {
    EmitChunks(ss, s, w, w', overlap);
    EmitCurrent(ss, s, w, w', overlap);
    EmitStripped(ss, s, w, w', overlap);
  }

  lemma EmitChunkTokens(cfg: Config, ss: seq<string>, s: string, w: Window, w': Window, overlap: string, k: nat)
    requires CutsInside(ss, w) && AllStripped(ss, w) && w.current != "" && Emitted(ss, s, w, w', overlap) && k < |w.chunks|
    ensures CutsInside(ss + [s], w')
    ensures ChunkTokens(cfg, ss + [s], w', k) == ChunkTokens(cfg, ss, w, k)
  {
    EmitCuts(ss, s, w, w', overlap);
    assert w'.seeds[k] == w.seeds[k] && w'.cuts[k] == w.cuts[k];
    SliceOfAppend(ss, s, PrevCut(w.cuts, k), w.cuts[k]);
  }

  lemma EmitLastTokens(cfg: Config, startChunkId: int, ss: seq<string>, s: string, w: Window, w': Window, overlap: string)
    requires CutsInside(ss, w) && AllStripped(ss, w) && CountersMatch(cfg, startChunkId, ss, w)
    requires w.current != "" && Emitted(ss, s, w, w', overlap)
    ensures CutsInside(ss + [s], w')
    ensures ChunkTokens(cfg, ss + [s], w', |w.chunks|) == w.tokens
  {
    EmitCuts(ss, s, w, w', overlap);
    var m := |w.chunks|;
    var p := PrevCut(w.cuts, m);
    assert w'.seeds[m] == w.seeds[m] && w'.cuts[m] == |ss|;
    SliceOfAppend(ss, s, p, |ss|);
    assert ss[p..] == ss[p..|ss|];
  }

  lemma EmitRecords(cfg: Config, page: int, globalStart: int, startChunkId: int, ss: seq<string>, s: string, w: Window, w': Window, overlap: string)
    requires CutsInside(ss, w) && AllStripped(ss, w) && RecordsMatch(cfg, page, globalStart, startChunkId, ss, w)
    requires CountersMatch(cfg, startChunkId, ss, w) && w.current != ""
    requires Emitted(ss, s, w, w', overlap) && w'.metadata == w.metadata + [Record(page, globalStart, w)]
    ensures CutsInside(ss + [s], w')
    ensures RecordsMatch(cfg, page, globalStart, startChunkId, ss + [s], w')
  {
    EmitCuts(ss, s, w, w', overlap);
    forall k | 0 <= k < |w'.chunks|
      ensures w'.metadata[k] == ChunkRecord(page, globalStart, startChunkId, w'.chunks, w'.seeds, k, ChunkTokens(cfg, ss + [s], w', k))
    {
      if k < |w.chunks| {
        EmitOldRecord(cfg, page, globalStart, startChunkId, ss, s, w, w', overlap, k);
      } else {
        EmitNewRecord(cfg, page, globalStart, startChunkId, ss, s, w, w', overlap);
      }
    }
  }

  lemma EmitOldRecord(cfg: Config, page: int, globalStart: int, startChunkId: int, ss: seq<string>, s: string, w: Window, w': Window, overlap: string, k: nat)
    requires CutsInside(ss, w) && AllStripped(ss, w) && RecordsMatch(cfg, page, globalStart, startChunkId, ss, w)
    requires w.current != "" && Emitted(ss, s, w, w', overlap) && |w'.metadata| == |w'.chunks| && k < |w.chunks|
    requires w'.metadata[k] == w.metadata[k]
    ensures CutsInside(ss + [s], w')
    ensures w'.metadata[k] == ChunkRecord(page, globalStart, startChunkId, w'.chunks, w'.seeds, k, ChunkTokens(cfg, ss + [s], w', k))
  {
    EmitChunkTokens(cfg, ss, s, w, w', overlap, k);
    StartOffsetPrefix(w.chunks, w.seeds, w'.chunks, w'.seeds, k);
    assert w'.chunks[k] == w.chunks[k];
  }

  lemma EmitNewRecord(cfg: Config, page: int, globalStart: int, startChunkId: int, ss: seq<string>, s: string, w: Window, w': Window, overlap: string)
    requires CutsInside(ss, w) && AllStripped(ss, w) && CountersMatch(cfg, startChunkId, ss, w)
    requires w.current != "" && Emitted(ss, s, w, w', overlap)
    ensures CutsInside(ss + [s], w')
    ensures Record(page, globalStart, w)
         == ChunkRecord(page, globalStart, startChunkId, w'.chunks, w'.seeds, |w.chunks|, ChunkTokens(cfg, ss + [s], w', |w.chunks|))
  {
    EmitLastTokens(cfg, startChunkId, ss, s, w, w', overlap);
    StartOffsetPrefix(w.chunks, w.seeds, w'.chunks, w'.seeds, |w.chunks|);
    assert Strip(w.current) == w.current;
  }

  lemma EmitCounters(cfg: Config, startChunkId: int, ss: seq<string>, s: string, w: Window, w': Window, overlap: string)
    requires CutsInside(ss, w) && AllStripped(ss, w) && CountersMatch(cfg, startChunkId, ss, w) && w.current != ""
    requires Emitted(ss, s, w, w', overlap) && w'.tokens == cfg.count(overlap) + cfg.count(s)
    ensures CutsInside(ss + [s], w')
    ensures CountersMatch(cfg, startChunkId, ss + [s], w')
  {
    EmitCuts(ss, s, w, w', overlap);
    var m := |w.chunks|;
    StartOffsetPrefix(w.chunks, w.seeds, w'.chunks, w'.seeds, m);
    assert w'.localStart == StartOffset(w'.chunks, w'.seeds, m + 1);
    assert (ss + [s])[|ss|..] == [s];
    assert SumCounts(cfg.count, [s]) == cfg.count(s) by { assert [s][..0] == []; }
  }

  lemma EmitBudget(cfg: Config, startChunkId: int, ss: seq<string>, s: string, w: Window, w': Window, overlap: string)
    requires CutsInside(ss, w) && AllStripped(ss, w) && CountersMatch(cfg, startChunkId, ss, w) && WithinBudget(cfg, ss, w)
    requires w.current != "" && w.tokens + cfg.count(s) > cfg.chunkSize && Emitted(ss, s, w, w', overlap)
    ensures CutsInside(ss + [s], w')
    ensures WithinBudget(cfg, ss + [s], w')
  {
    EmitCuts(ss, s, w, w', overlap);
    var m := |w.chunks|;
    forall k | 0 <= k < |w'.chunks|
      ensures && (ChunkTokens(cfg, ss + [s], w', k) <= cfg.chunkSize || w'.cuts[k] - PrevCut(w'.cuts, k) == 1)
              && ChunkTokens(cfg, ss + [s], w', k) + cfg.count((ss + [s])[w'.cuts[k]]) > cfg.chunkSize
    {
      if k < m {
        EmitBudgetChunk(cfg, ss, s, w, w', overlap, k);
      } else {
        assert k == m;
        EmitBudgetLast(cfg, startChunkId, ss, s, w, w', overlap);
      }
    }
    assert PrevCut(w'.cuts, |w'.cuts|) == |ss|;
  }

  lemma EmitBudgetLast(cfg: Config, startChunkId: int, ss: seq<string>, s: string, w: Window, w': Window, overlap: string)
    requires CutsInside(ss, w) && AllStripped(ss, w) && CountersMatch(cfg, startChunkId, ss, w)
    requires w.current != "" && w.tokens + cfg.count(s) > cfg.chunkSize && Emitted(ss, s, w, w', overlap)
    ensures CutsInside(ss + [s], w')
    ensures var m := |w.chunks|;
      && m < |w'.chunks|
      && ChunkTokens(cfg, ss + [s], w', m) + cfg.count((ss + [s])[w'.cuts[m]]) > cfg.chunkSize
  {
    var m := |w.chunks|;
    EmitLastTokens(cfg, startChunkId, ss, s, w, w', overlap);
    assert w'.cuts[m] == |ss| && (ss + [s])[|ss|] == s;
  }

  lemma EmitBudgetChunk(cfg: Config, ss: seq<string>, s: string, w: Window, w': Window, overlap: string, k: nat)
    requires CutsInside(ss, w) && AllStripped(ss, w) && WithinBudget(cfg, ss, w)
    requires w.current != "" && Emitted(ss, s, w, w', overlap) && k < |w.chunks|
    ensures CutsInside(ss + [s], w')
    ensures && (ChunkTokens(cfg, ss + [s], w', k) <= cfg.chunkSize || w'.cuts[k] - PrevCut(w'.cuts, k) == 1)
            && ChunkTokens(cfg, ss + [s], w', k) + cfg.count((ss + [s])[w'.cuts[k]]) > cfg.chunkSize
  {
    EmitChunkTokens(cfg, ss, s, w, w', overlap, k);
    assert w'.cuts[k] == w.cuts[k] && PrevCut(w'.cuts, k) == PrevCut(w.cuts, k);
    assert (ss + [s])[w.cuts[k]] == ss[w.cuts[k]];
  }

  lemma EmitSeeds(cfg: Config, w: Window, w': Window, ss: seq<string>, s: string)
    requires SeedsAreOverlaps(cfg, w) && Trimmed(w.current)
    requires Emitted(ss, s, w, w', OverlapText(cfg.count, cfg.overlapSize, w.current))
    ensures SeedsAreOverlaps(cfg, w')
  {
  }

  /** One iteration of the sentence loop keeps the whole invariant. */
  lemma StepInvariant(cfg: Config, page: int, globalStart: int, startChunkId: int, ss: seq<string>, s: string, w: Window)
    requires s != "" && Trimmed(s) && WindowInvariant(cfg, page, globalStart, startChunkId, ss, w)
    ensures WindowInvariant(cfg, page, globalStart, startChunkId, ss + [s], Step(cfg, page, globalStart, w, s, |ss|))
  {
    var w' := Step(cfg, page, globalStart, w, s, |ss|);
    if w.tokens + cfg.count(s) > cfg.chunkSize && w.current != "" {
      var overlap := OverlapText(cfg.count, cfg.overlapSize, w.current);
      EmitIsEmitted(page, globalStart, ss, s, w, overlap, cfg.count(overlap), cfg.count(s));
      assert Emitted(ss, s, w, w', overlap);
      EmitCovers(ss, s, w, w', overlap);
      EmitSeeds(cfg, w, w', ss, s);
      EmitRecords(cfg, page, globalStart, startChunkId, ss, s, w, w', overlap);
      EmitCounters(cfg, startChunkId, ss, s, w, w', overlap);
      EmitBudget(cfg, startChunkId, ss, s, w, w', overlap);
    } else {
      AppendCovers(ss, s, w, cfg.count(s));
      AppendSeeds(cfg, w, s, cfg.count(s));
      AppendRecords(cfg, page, globalStart, startChunkId, ss, s, w, cfg.count(s));
      AppendCounters(cfg, startChunkId, ss, s, w);
      AppendBudget(cfg, startChunkId, ss, s, w);
    }
  }

  /** The invariant holds after every prefix of the sentences. */
  lemma {:induction false} WindowInvariantHolds(cfg: Config, page: int, globalStart: int, startChunkId: int, sentences: seq<string>)
    requires AllSentences(sentences)
    ensures WindowInvariant(cfg, page, globalStart, startChunkId, sentences, WindowAfter(cfg, page, globalStart, startChunkId, sentences))
    decreases |sentences|
  {
    if sentences == [] {
      assert sentences[0..] == [];
    } else {
      var n := |sentences| - 1;
      var s := sentences[n];
      assert sentences == sentences[..n] + [s];
      assert IsSentence(s);
      SentenceIsTrimmed(s);
      WindowInvariantHolds(cfg, page, globalStart, startChunkId, sentences[..n]);
      StepInvariant(cfg, page, globalStart, startChunkId, sentences[..n], s, WindowAfter(cfg, page, globalStart, startChunkId, sentences[..n]));
    }
  }

  // ---------------------------------------------------------------------------
  // _chunk_text

  /** _chunk_text: the sentence loop with its emit-and-reseed step, the final chunk and the carryover. */
  method ChunkText(cfg: Config, text: string, page: int, startChunkId: int, globalStart: int) returns (r: PageResult)
    ensures r == PageChunks(cfg, text, page, startChunkId, globalStart)
  {
    var sentences := SplitIntoSentences(text);
    var chunks: seq<string> := [];
    var metadata: seq<ChunkMetadata> := [];
    var chunkId := startChunkId;
    var chunkIndex := chunkId - 1;
    var current := "";
    var currentTokens := 0;
    var localStart := 0;
    var i := 0;
    while i < |sentences|
      invariant 0 <= i <= |sentences|
      invariant Holds(WindowAfter(cfg, page, globalStart, startChunkId, sentences[..i]),
        chunks, metadata, current, currentTokens, localStart, chunkId, chunkIndex)
    {
      chunks, metadata, current, currentTokens, localStart, chunkId, chunkIndex :=
        ChunkStep(cfg, page, globalStart, startChunkId, sentences, i,
          chunks, metadata, current, currentTokens, localStart, chunkId, chunkIndex);
      i := i + 1;
    }
    assert sentences[..i] == sentences;
    ghost var w := WindowAfter(cfg, page, globalStart, startChunkId, sentences);
    if Strip(current) != "" {
      var chunkText := Strip(current);
      var localEnd := localStart + |chunkText|;
      var globalEnd := globalStart + localEnd;
      var meta := CreateChunkMetadata(chunkId, chunkText, page, globalStart + localStart, globalEnd,
        currentTokens, chunkIndex, 0);
      assert meta == Record(page, globalStart, w);
      chunks := chunks + [chunkText];
      metadata := metadata + [meta];
    }
    var carryover := "";
    if current != "" {
      carryover := GetOverlapText(cfg.count, cfg.overlapSize, current);
    }
    r := PageResult(chunks, metadata, carryover);
  }

  /** One pass of the sentence loop: close the chunk when the sentence would overflow it, then add the sentence. */
  method ChunkStep(cfg: Config, page: int, globalStart: int, startChunkId: int, sentences: seq<string>, i: nat,
                   chunks: seq<string>, metadata: seq<ChunkMetadata>, current: string, currentTokens: int,
                   localStart: int, chunkId: int, chunkIndex: int)
    returns (chunks': seq<string>, metadata': seq<ChunkMetadata>, current': string, currentTokens': int,
             localStart': int, chunkId': int, chunkIndex': int)
    requires i < |sentences|
    requires Holds(WindowAfter(cfg, page, globalStart, startChunkId, sentences[..i]),
      chunks, metadata, current, currentTokens, localStart, chunkId, chunkIndex)
    ensures Holds(WindowAfter(cfg, page, globalStart, startChunkId, sentences[..i + 1]),
      chunks', metadata', current', currentTokens', localStart', chunkId', chunkIndex')
  {
    var sentenceTokens := cfg.count(sentences[i]);
    if currentTokens + sentenceTokens > cfg.chunkSize && current != "" {
      chunks', metadata', current', currentTokens', localStart', chunkId', chunkIndex' :=
        CloseChunk(cfg, page, globalStart, startChunkId, sentences, i,
          chunks, metadata, current, currentTokens, localStart, chunkId, chunkIndex);
    } else {
      LoopAppend(cfg, page, globalStart, startChunkId, sentences, i);
      chunks', metadata' := chunks, metadata;
      current', currentTokens' := current + sentences[i], currentTokens + sentenceTokens;
      localStart', chunkId', chunkIndex' := localStart, chunkId, chunkIndex;
    }
  }

  /** The overflow branch: emit the stripped chunk with its metadata and start the next one from the overlap and the sentence. */
  method CloseChunk(cfg: Config, page: int, globalStart: int, startChunkId: int, sentences: seq<string>, i: nat,
                    chunks: seq<string>, metadata: seq<ChunkMetadata>, current: string, currentTokens: int,
                    localStart: int, chunkId: int, chunkIndex: int)
    returns (chunks': seq<string>, metadata': seq<ChunkMetadata>, current': string, currentTokens': int,
             localStart': int, chunkId': int, chunkIndex': int)
    requires i < |sentences|
    requires Holds(WindowAfter(cfg, page, globalStart, startChunkId, sentences[..i]),
      chunks, metadata, current, currentTokens, localStart, chunkId, chunkIndex)
    requires currentTokens + cfg.count(sentences[i]) > cfg.chunkSize && current != ""
    ensures Holds(WindowAfter(cfg, page, globalStart, startChunkId, sentences[..i + 1]),
      chunks', metadata', current', currentTokens', localStart', chunkId', chunkIndex')
  {
    ghost var w := WindowAfter(cfg, page, globalStart, startChunkId, sentences[..i]);
    LoopEmit(cfg, page, globalStart, startChunkId, sentences, i);
    var chunkText := Strip(current);
    var localEnd := localStart + |chunkText|;
    var globalEnd := globalStart + localEnd;
    var meta := CreateChunkMetadata(chunkId, chunkText, page, globalStart + localStart, globalEnd,
      currentTokens, chunkIndex, 0);
    assert meta == Record(page, globalStart, w);
    var overlap := GetOverlapText(cfg.count, cfg.overlapSize, current);
    chunks', metadata' := chunks + [chunkText], metadata + [meta];
    current', currentTokens' := overlap + sentences[i], cfg.count(overlap) + cfg.count(sentences[i]);
    localStart', chunkId', chunkIndex' := localEnd - |overlap|, chunkId + 1, chunkIndex + 1;
  }

  /** The program variables of the loop hold the window's non-ghost fields. */
  predicate Holds(w: Window, chunks: seq<string>, metadata: seq<ChunkMetadata>, current: string, tokens: int,
                  localStart: int, chunkId: int, chunkIndex: int)
  {
    && w.chunks == chunks && w.metadata == metadata && w.current == current && w.tokens == tokens
    && w.localStart == localStart && w.chunkId == chunkId && w.chunkIndex == chunkIndex
  }

  /** A pass of the loop body that emits a chunk, field by field as the method performs it. */
  lemma LoopEmit(cfg: Config, page: int, globalStart: int, startChunkId: int, sentences: seq<string>, i: nat)
    requires i < |sentences|
    requires var w := WindowAfter(cfg, page, globalStart, startChunkId, sentences[..i]);
      w.tokens + cfg.count(sentences[i]) > cfg.chunkSize && w.current != ""
    ensures var w := WindowAfter(cfg, page, globalStart, startChunkId, sentences[..i]);
            var t := Strip(w.current);
            var o := OverlapText(cfg.count, cfg.overlapSize, w.current);
            Holds(WindowAfter(cfg, page, globalStart, startChunkId, sentences[..i + 1]), w.chunks + [t],
              w.metadata + [Record(page, globalStart, w)],
              o + sentences[i], cfg.count(o) + cfg.count(sentences[i]), w.localStart + |t| - |o|, w.chunkId + 1, w.chunkIndex + 1)
  {
    WindowAfterStep(cfg, page, globalStart, startChunkId, sentences, i);
    var w := WindowAfter(cfg, page, globalStart, startChunkId, sentences[..i]);
    var o := OverlapText(cfg.count, cfg.overlapSize, w.current);
    var e := Emit(page, globalStart, w, i, o, cfg.count(o));
    assert Step(cfg, page, globalStart, w, sentences[i], i) == Append(e, sentences[i], cfg.count(sentences[i]));
  }

  /** A pass of the loop body that only appends the sentence. */
  lemma LoopAppend(cfg: Config, page: int, globalStart: int, startChunkId: int, sentences: seq<string>, i: nat)
    requires i < |sentences|
    requires var w := WindowAfter(cfg, page, globalStart, startChunkId, sentences[..i]);
      !(w.tokens + cfg.count(sentences[i]) > cfg.chunkSize && w.current != "")
    ensures var w := WindowAfter(cfg, page, globalStart, startChunkId, sentences[..i]);
            Holds(WindowAfter(cfg, page, globalStart, startChunkId, sentences[..i + 1]),
              w.chunks, w.metadata, w.current + sentences[i], w.tokens + cfg.count(sentences[i]), w.localStart, w.chunkId, w.chunkIndex)
  {
    WindowAfterStep(cfg, page, globalStart, startChunkId, sentences, i);
  }

  lemma WindowAfterStep(cfg: Config, page: int, globalStart: int, startChunkId: int, sentences: seq<string>, i: nat)
    requires i < |sentences|
    ensures WindowAfter(cfg, page, globalStart, startChunkId, sentences[..i + 1])
         == Step(cfg, page, globalStart, WindowAfter(cfg, page, globalStart, startChunkId, sentences[..i]), sentences[i], i)
  {
    assert sentences[..i + 1][..i] == sentences[..i];
  }

  // ---------------------------------------------------------------------------
  // What _chunk_text promises about one page

  /** For each chunk, the index of the first sentence after its window: the loop's cuts, then the end for the final chunk. */
  function FinalCuts(sentences: seq<string>, w: Window): seq<nat>
  {
    if sentences == [] then w.cuts else w.cuts + [|sentences|]
  }

  /** For each chunk, the text it starts from: the loop's seeds, once there is a final chunk. */
  function FinalSeeds(sentences: seq<string>, w: Window): seq<string>
  {
    if sentences == [] then [] else w.seeds
  }

  /** The cuts of one page's chunks. */
  ghost function PageCuts(cfg: Config, text: string, page: int, startChunkId: int, globalStart: int): seq<nat>
  {
    var ss := SentencesOf(text);
    FinalCuts(ss, WindowAfter(cfg, page, globalStart, startChunkId, ss))
  }

  /** The seeds of one page's chunks. */
  ghost function PageSeeds(cfg: Config, text: string, page: int, startChunkId: int, globalStart: int): seq<string>
  {
    var ss := SentencesOf(text);
    FinalSeeds(ss, WindowAfter(cfg, page, globalStart, startChunkId, ss))
  }

  /** The window after the last sentence, and how the result extends it. */
  lemma FinalWindow(cfg: Config, page: int, globalStart: int, startChunkId: int, ss: seq<string>)
    requires AllSentences(ss)
    ensures var w := WindowAfter(cfg, page, globalStart, startChunkId, ss);
            var r := Finish(cfg, page, globalStart, w);
      && WindowInvariant(cfg, page, globalStart, startChunkId, ss, w)
      && (ss == [] ==> r.chunks == w.chunks == [] && r.metadata == w.metadata && w.cuts == [] && r.carryoverText == "")
      && (ss != [] ==> r.chunks == w.chunks + [w.current] && r.metadata == w.metadata + [Record(page, globalStart, w)]
                       && r.carryoverText == OverlapText(cfg.count, cfg.overlapSize, w.current))
  {
    WindowInvariantHolds(cfg, page, globalStart, startChunkId, ss);
    var w := WindowAfter(cfg, page, globalStart, startChunkId, ss);
    if ss == [] {
      assert w == StartWindow(startChunkId);
    } else {
      assert Strip(w.current) == w.current;
    }
  }

  /**
   * How a page's chunks cover its sentences: the windows between consecutive cuts
   * tile the sentences; each chunk is its seed followed by its window's sentences
   * glued with no separator; the first seed is empty and every later one is the
   * overlap of the chunk before it; each chunk is stripped and non-empty; there
   * are chunks exactly when there are sentences; and the carryover is the overlap
   * of the last chunk, the seed the next chunk would start from.
   */
  ghost predicate ChunksTile(cfg: Config, ss: seq<string>, cuts: seq<nat>, seeds: seq<string>, r: PageResult)
  {
    && TileCuts(ss, cuts, |r.chunks|)
    && TileSeeds(cfg, seeds, r)
    && TileChunks(ss, cuts, seeds, r.chunks)
    && (forall k :: 0 <= k < |r.chunks| ==> r.chunks[k] != "" && Trimmed(r.chunks[k]))
  }

  /** The cuts rise strictly from inside the sentences to their end, one per chunk; no chunks exactly when no sentences. */
  ghost predicate TileCuts(ss: seq<string>, cuts: seq<nat>, n: nat)
  {
    && |cuts| == n
    && (n == 0 <==> ss == [])
    && (forall j, k :: 0 <= j < k < n ==> cuts[j] < cuts[k])
    && (forall k :: 0 <= k < n ==> 0 < cuts[k] <= |ss|)
    && (n > 0 ==> cuts[n - 1] == |ss|)
  }

  /** The first seed is empty, every later one and the carryover are the overlap of the chunk before. */
  ghost predicate TileSeeds(cfg: Config, seeds: seq<string>, r: PageResult)
  {
    var n := |r.chunks|;
    && |seeds| == n
    && (n > 0 ==> seeds[0] == "")
    && (forall k :: 0 <= k < n - 1 ==> seeds[k + 1] == OverlapText(cfg.count, cfg.overlapSize, r.chunks[k]))
    && r.carryoverText == (if n == 0 then "" else OverlapText(cfg.count, cfg.overlapSize, r.chunks[n - 1]))
  }

  /** Each chunk is its seed followed by its window's sentences, glued with no separator. */
  ghost predicate TileChunks(ss: seq<string>, cuts: seq<nat>, seeds: seq<string>, chunks: seq<string>)
    requires |cuts| == |seeds| == |chunks| && forall k :: 0 <= k < |cuts| ==> PrevCut(cuts, k) <= cuts[k] <= |ss|
  {
    forall k :: 0 <= k < |chunks| ==> chunks[k] == seeds[k] + Concat(ss[PrevCut(cuts, k)..cuts[k]])
  }

  lemma FinishTiles(cfg: Config, page: int, globalStart: int, startChunkId: int, ss: seq<string>)
    requires AllSentences(ss)
    ensures var w := WindowAfter(cfg, page, globalStart, startChunkId, ss);
      ChunksTile(cfg, ss, FinalCuts(ss, w), FinalSeeds(ss, w), Finish(cfg, page, globalStart, w))
  {
    FinalWindow(cfg, page, globalStart, startChunkId, ss);
    var w := WindowAfter(cfg, page, globalStart, startChunkId, ss);
    ClosedTiles(cfg, ss, w, Finish(cfg, page, globalStart, w));
  }

  /** The final chunk closes the last window at the end of the sentences. */
  lemma ClosedTiles(cfg: Config, ss: seq<string>, w: Window, r: PageResult)
    requires Covers(ss, w) && SeedsAreOverlaps(cfg, w)
    requires ss == [] ==> r.chunks == w.chunks == [] && w.cuts == [] && r.carryoverText == ""
    requires ss != [] ==> r.chunks == w.chunks + [w.current] && r.carryoverText == OverlapText(cfg.count, cfg.overlapSize, w.current)
    ensures ChunksTile(cfg, ss, FinalCuts(ss, w), FinalSeeds(ss, w), r)
  {
    if ss != [] {
      ClosedCuts(ss, w);
      ClosedSeeds(cfg, ss, w, r);
      ClosedChunks(ss, w, r.chunks);
      ClosedStripped(ss, w, r.chunks);
    }
  }

  lemma ClosedStripped(ss: seq<string>, w: Window, chunks: seq<string>)
    requires AllStripped(ss, w) && ss != [] && chunks == w.chunks + [w.current]
    ensures forall k :: 0 <= k < |chunks| ==> chunks[k] != "" && Trimmed(chunks[k])
  {
    assert forall k :: 0 <= k < |w.chunks| ==> chunks[k] == w.chunks[k];
  }

  lemma ClosedSeeds(cfg: Config, ss: seq<string>, w: Window, r: PageResult)
    requires CutsInside(ss, w) && SeedsAreOverlaps(cfg, w) && ss != []
    requires r.chunks == w.chunks + [w.current] && r.carryoverText == OverlapText(cfg.count, cfg.overlapSize, w.current)
    ensures TileSeeds(cfg, FinalSeeds(ss, w), r)
  {
    forall k | 0 <= k < |r.chunks| - 1
      ensures w.seeds[k + 1] == OverlapText(cfg.count, cfg.overlapSize, r.chunks[k])
    {
      assert r.chunks[k] == w.chunks[k];
    }
  }

  lemma ClosedChunks(ss: seq<string>, w: Window, chunks: seq<string>)
    requires Covers(ss, w) && ss != [] && chunks == w.chunks + [w.current]
    ensures TileCuts(ss, FinalCuts(ss, w), |chunks|) && |FinalSeeds(ss, w)| == |chunks|
    ensures TileChunks(ss, FinalCuts(ss, w), FinalSeeds(ss, w), chunks)
  {
    ClosedCuts(ss, w);
    forall k | 0 <= k < |chunks|
      ensures chunks[k] == w.seeds[k] + Concat(ss[PrevCut(FinalCuts(ss, w), k)..FinalCuts(ss, w)[k]])
    {
      ClosedChunk(ss, w, chunks, k);
    }
  }

  lemma ClosedCuts(ss: seq<string>, w: Window)
    requires CutsInside(ss, w) && ss != []
    ensures TileCuts(ss, FinalCuts(ss, w), |w.chunks| + 1)
    ensures var cuts := FinalCuts(ss, w);
      && |cuts| == |w.chunks| + 1 && cuts[|w.chunks|] == |ss|
      && (forall j, k :: 0 <= j < k < |cuts| ==> cuts[j] < cuts[k])
      && (forall k :: 0 <= k < |cuts| ==> 0 < cuts[k] <= |ss|)
      && (forall k :: 0 <= k <= |w.chunks| ==> PrevCut(cuts, k) == PrevCut(w.cuts, k))
  {
    var cuts := FinalCuts(ss, w);
    forall k | 0 <= k <= |w.chunks| ensures PrevCut(cuts, k) == PrevCut(w.cuts, k) {
    }
  }

  lemma ClosedChunk(ss: seq<string>, w: Window, chunks: seq<string>, k: nat)
    requires Covers(ss, w) && ss != []
    requires chunks == w.chunks + [w.current] && k < |chunks|
    ensures var cuts := FinalCuts(ss, w);
      |cuts| == |chunks| && chunks[k] == w.seeds[k] + Concat(ss[PrevCut(cuts, k)..cuts[k]])
  {
    var cuts := FinalCuts(ss, w);
    assert cuts == w.cuts + [|ss|];
    assert PrevCut(cuts, k) == PrevCut(w.cuts, k);
    if k == |w.chunks| {
      assert ss[PrevCut(w.cuts, k)..] == ss[PrevCut(cuts, k)..cuts[k]];
    } else {
      assert cuts[k] == w.cuts[k];
    }
  }

  /** Every sentence of a page lands in exactly one chunk, in order (see ChunksTile). */
  lemma PageChunksCover(cfg: Config, text: string, page: int, startChunkId: int, globalStart: int)
    ensures ChunksTile(cfg, SentencesOf(text), PageCuts(cfg, text, page, startChunkId, globalStart),
      PageSeeds(cfg, text, page, startChunkId, globalStart), PageChunks(cfg, text, page, startChunkId, globalStart))
  {
    SentencesAreSentences(text);
    FinishTiles(cfg, page, globalStart, startChunkId, SentencesOf(text));
  }

  /**
   * The records of a page's chunks: consecutive ids and indices from the first
   * id, total_chunks still 0, the page number, the text's length and preview,
   * and positions that start at the page's offset and move on by each chunk's
   * length minus the overlap the next chunk re-uses.
   */
  ghost predicate RecordsShape(page: int, globalStart: int, startChunkId: int, seeds: seq<string>, r: PageResult)
    requires |seeds| == |r.chunks|
  {
    var n := |r.chunks|;
    && |r.metadata| == n
    && (forall k :: 0 <= k < n ==>
          && r.metadata[k].chunkId == startChunkId + k
          && r.metadata[k].chunkIndex == startChunkId - 1 + k
          && r.metadata[k].totalChunks == 0
          && r.metadata[k].sourcePage == page
          && r.metadata[k].textLength == |r.chunks[k]|
          && r.metadata[k].chunkTextPreview == Preview(r.chunks[k])
          && r.metadata[k].startPosition == globalStart + StartOffset(r.chunks, seeds, k)
          && r.metadata[k].endPosition == r.metadata[k].startPosition + |r.chunks[k]|)
    && (n > 0 ==> r.metadata[0].startPosition == globalStart)
    && (forall k :: 0 <= k < n - 1 ==> r.metadata[k + 1].startPosition == r.metadata[k].endPosition - |seeds[k + 1]|)
  }

  lemma ClosedRecords(cfg: Config, page: int, globalStart: int, startChunkId: int, ss: seq<string>, w: Window, r: PageResult)
    requires CutsInside(ss, w) && AllStripped(ss, w) && RecordsMatch(cfg, page, globalStart, startChunkId, ss, w)
    requires CountersMatch(cfg, startChunkId, ss, w) && ss != []
    requires r.chunks == w.chunks + [w.current] && r.metadata == w.metadata + [Record(page, globalStart, w)]
    ensures |FinalSeeds(ss, w)| == |r.chunks|
    ensures RecordsShape(page, globalStart, startChunkId, FinalSeeds(ss, w), r)
  {
    ClosedRecord(cfg, page, globalStart, startChunkId, ss, w, r, 0);
    forall k | 0 <= k < |r.chunks|
      ensures r.metadata[k] == ChunkRecord(page, globalStart, startChunkId, r.chunks, w.seeds, k, r.metadata[k].tokenCount)
    {
      ClosedRecord(cfg, page, globalStart, startChunkId, ss, w, r, k);
    }
    assert FinalSeeds(ss, w) == w.seeds;
    ShapeOfRecords(page, globalStart, startChunkId, w.seeds, r);
  }

  /** Records in closed form have the shape the page promises. */
  lemma ShapeOfRecords(page: int, globalStart: int, startChunkId: int, seeds: seq<string>, r: PageResult)
    requires |seeds| == |r.chunks| == |r.metadata|
    requires forall k :: 0 <= k < |r.chunks| ==>
      r.metadata[k] == ChunkRecord(page, globalStart, startChunkId, r.chunks, seeds, k, r.metadata[k].tokenCount)
    ensures RecordsShape(page, globalStart, startChunkId, seeds, r)
  {
    var n := |r.chunks|;
    forall k | 0 <= k < n - 1
      ensures r.metadata[k + 1].startPosition == r.metadata[k].endPosition - |seeds[k + 1]|
    {
      assert StartOffset(r.chunks, seeds, k + 1) == StartOffset(r.chunks, seeds, k) + |r.chunks[k]| - |seeds[k + 1]|;
    }
  }

  lemma ClosedRecord(cfg: Config, page: int, globalStart: int, startChunkId: int, ss: seq<string>, w: Window, r: PageResult, k: nat)
    requires CutsInside(ss, w) && AllStripped(ss, w) && RecordsMatch(cfg, page, globalStart, startChunkId, ss, w)
    requires CountersMatch(cfg, startChunkId, ss, w) && ss != []
    requires r.chunks == w.chunks + [w.current] && r.metadata == w.metadata + [Record(page, globalStart, w)]
    requires k < |r.chunks|
    ensures |r.metadata| == |r.chunks| == |w.seeds|
    ensures r.metadata[k] == ChunkRecord(page, globalStart, startChunkId, r.chunks, w.seeds, k, r.metadata[k].tokenCount)
  {
    StartOffsetPrefix(w.chunks, w.seeds, r.chunks, w.seeds, k);
    if k < |w.chunks| {
      assert r.chunks[k] == w.chunks[k] && r.metadata[k] == w.metadata[k];
    } else {
      assert Strip(w.current) == w.current;
    }
  }

  /**
   * The token count of chunk k: its record carries the running sum (its seed's
   * recount plus its sentences' counts); over the budget it holds a single
   * sentence after its seed; and unless it is the last chunk it was closed
   * because the next sentence would have pushed it past the budget.
   */
  ghost predicate ChunkTokenFacts(cfg: Config, ss: seq<string>, cuts: seq<nat>, seeds: seq<string>, r: PageResult, k: nat)
  {
    var n := |r.chunks|;
    && k < n == |cuts| == |seeds| == |r.metadata|
    && PrevCut(cuts, k) <= cuts[k] <= |ss|
    && r.metadata[k].tokenCount == SeedTokens(cfg.count, seeds, k) + SumCounts(cfg.count, ss[PrevCut(cuts, k)..cuts[k]])
    && (r.metadata[k].tokenCount <= cfg.chunkSize || cuts[k] - PrevCut(cuts, k) == 1)
    && (k < n - 1 ==> cuts[k] < |ss| && r.metadata[k].tokenCount + cfg.count(ss[cuts[k]]) > cfg.chunkSize)
  }

  /** The token counts of all of a page's chunks. */
  ghost predicate TokensShape(cfg: Config, ss: seq<string>, cuts: seq<nat>, seeds: seq<string>, r: PageResult)
  {
    forall k :: 0 <= k < |r.chunks| ==> ChunkTokenFacts(cfg, ss, cuts, seeds, r, k)
  }

  lemma ClosedTokens(cfg: Config, page: int, globalStart: int, startChunkId: int, ss: seq<string>, w: Window, r: PageResult)
    requires CutsInside(ss, w) && RecordsMatch(cfg, page, globalStart, startChunkId, ss, w)
    requires CountersMatch(cfg, startChunkId, ss, w) && WithinBudget(cfg, ss, w)
    requires ss == [] ==> r.chunks == []
    requires ss != [] ==> r.chunks == w.chunks + [w.current] && r.metadata == w.metadata + [Record(page, globalStart, w)]
    ensures TokensShape(cfg, ss, FinalCuts(ss, w), FinalSeeds(ss, w), r)
  {
    forall k | 0 <= k < |r.chunks|
      ensures ChunkTokenFacts(cfg, ss, FinalCuts(ss, w), FinalSeeds(ss, w), r, k)
    {
      ClosedTokenCount(cfg, page, globalStart, startChunkId, ss, w, r, k);
    }
  }

  lemma ClosedTokenCount(cfg: Config, page: int, globalStart: int, startChunkId: int, ss: seq<string>, w: Window, r: PageResult, k: nat)
    requires CutsInside(ss, w) && RecordsMatch(cfg, page, globalStart, startChunkId, ss, w)
    requires CountersMatch(cfg, startChunkId, ss, w) && WithinBudget(cfg, ss, w) && ss != []
    requires r.chunks == w.chunks + [w.current] && r.metadata == w.metadata + [Record(page, globalStart, w)]
    requires k < |r.chunks|
    ensures ChunkTokenFacts(cfg, ss, FinalCuts(ss, w), FinalSeeds(ss, w), r, k)
  {
    if k < |w.chunks| {
      ClosedOldTokens(cfg, page, globalStart, startChunkId, ss, w, r, k);
    } else {
      ClosedLastTokens(cfg, page, globalStart, startChunkId, ss, w, r, k);
    }
  }

  lemma ClosedOldTokens(cfg: Config, page: int, globalStart: int, startChunkId: int, ss: seq<string>, w: Window, r: PageResult, k: nat)
    requires CutsInside(ss, w) && RecordsMatch(cfg, page, globalStart, startChunkId, ss, w) && WithinBudget(cfg, ss, w) && ss != []
    requires r.chunks == w.chunks + [w.current] && r.metadata == w.metadata + [Record(page, globalStart, w)] && k < |w.chunks|
    ensures ChunkTokenFacts(cfg, ss, FinalCuts(ss, w), FinalSeeds(ss, w), r, k)
  {
    ClosedCuts(ss, w);
    var cuts := FinalCuts(ss, w);
    assert r.metadata[k] == w.metadata[k];
    assert PrevCut(cuts, k) == PrevCut(w.cuts, k) && cuts[k] == w.cuts[k];
    assert r.metadata[k].tokenCount == ChunkTokens(cfg, ss, w, k);
  }

  lemma ClosedLastTokens(cfg: Config, page: int, globalStart: int, startChunkId: int, ss: seq<string>, w: Window, r: PageResult, m: nat)
    requires CutsInside(ss, w) && CountersMatch(cfg, startChunkId, ss, w) && WithinBudget(cfg, ss, w) && ss != []
    requires r.chunks == w.chunks + [w.current] && r.metadata == w.metadata + [Record(page, globalStart, w)]
    requires |w.metadata| == |w.chunks| == m
    ensures ChunkTokenFacts(cfg, ss, FinalCuts(ss, w), FinalSeeds(ss, w), r, m)
  {
    ClosedCuts(ss, w);
    var cuts := FinalCuts(ss, w);
    assert PrevCut(cuts, m) == PrevCut(w.cuts, m) && cuts[m] == |ss|;
    assert ss[PrevCut(w.cuts, m)..] == ss[PrevCut(cuts, m)..cuts[m]];
    assert r.metadata[m].tokenCount == w.tokens;
  }

  /** The records of a page's chunks (see RecordsShape), with positions from the seeds of ChunksTile. */
  lemma PageChunksRecords(cfg: Config, text: string, page: int, startChunkId: int, globalStart: int)
    ensures |PageSeeds(cfg, text, page, startChunkId, globalStart)| == |PageChunks(cfg, text, page, startChunkId, globalStart).chunks|
    ensures RecordsShape(page, globalStart, startChunkId, PageSeeds(cfg, text, page, startChunkId, globalStart),
      PageChunks(cfg, text, page, startChunkId, globalStart))
  {
    SentencesAreSentences(text);
    FinishRecords(cfg, page, globalStart, startChunkId, SentencesOf(text));
  }

  lemma FinishRecords(cfg: Config, page: int, globalStart: int, startChunkId: int, ss: seq<string>)
    requires AllSentences(ss)
    ensures var w := WindowAfter(cfg, page, globalStart, startChunkId, ss);
      && |FinalSeeds(ss, w)| == |Finish(cfg, page, globalStart, w).chunks|
      && RecordsShape(page, globalStart, startChunkId, FinalSeeds(ss, w), Finish(cfg, page, globalStart, w))
  {
    FinalWindow(cfg, page, globalStart, startChunkId, ss);
    var w := WindowAfter(cfg, page, globalStart, startChunkId, ss);
    if ss != [] {
      ClosedRecords(cfg, page, globalStart, startChunkId, ss, w, Finish(cfg, page, globalStart, w));
    }
  }

  /** The token counts of a page's chunks (see TokensShape). */
  lemma PageChunksTokens(cfg: Config, text: string, page: int, startChunkId: int, globalStart: int)
    ensures TokensShape(cfg, SentencesOf(text), PageCuts(cfg, text, page, startChunkId, globalStart),
      PageSeeds(cfg, text, page, startChunkId, globalStart), PageChunks(cfg, text, page, startChunkId, globalStart))
  {
    SentencesAreSentences(text);
    FinishTokens(cfg, page, globalStart, startChunkId, SentencesOf(text));
  }

  lemma FinishTokens(cfg: Config, page: int, globalStart: int, startChunkId: int, ss: seq<string>)
    requires AllSentences(ss)
    ensures var w := WindowAfter(cfg, page, globalStart, startChunkId, ss);
      TokensShape(cfg, ss, FinalCuts(ss, w), FinalSeeds(ss, w), Finish(cfg, page, globalStart, w))
  {
    FinalWindow(cfg, page, globalStart, startChunkId, ss);
    var w := WindowAfter(cfg, page, globalStart, startChunkId, ss);
    ClosedTokens(cfg, page, globalStart, startChunkId, ss, w, Finish(cfg, page, globalStart, w));
  }

}
