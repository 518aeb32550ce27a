# Stratos chunking core in Dafny

This project models the document-preparation core of Stratos, a pipeline that
turns extracted PDF pages into embedding-ready chunks. It covers four parts:

- **Text normaliser** (`input/normalizer.py`). `normalize_text` runs six passes in
  order. The passes are basic cleaning, header/footer removal, word-spacing repair,
  whitespace normalisation, optional structure marking and final cleanup. It then
  reports the text with its metrics. `normalize_batch` and
  `get_normalization_stats` work over lists of texts.
- **Chunker** (`chunking/chunker.py`). `_split_into_sentences` splits text on runs
  of `.`, `!` and `?`. `_chunk_text` builds chunks sentence by sentence up to a
  token budget. It starts each new chunk from an overlap tail that
  `_get_overlap_text` computes. `chunk_pages` walks the pages and carries that
  overlap across page boundaries. It numbers the chunks globally, backfills
  `total_chunks` and builds the summary. `format_chunks_for_output` prints the chunks.
- **Metadata** (`chunking/metadata_handler.py`). This file builds the per-chunk
  record, the run summary and the text block of one chunk.
- **Batching** (`embeddings/batch_processor.py`). `create_batches` cuts the chunk
  list into slices of at most `BATCH_SIZE`. `process_all_batches` keeps the output
  of every batch that succeeds.

Each Python `for` or `while` statement is a Dafny `method` with a `while` loop.
The `sum(...)` generators and list comprehensions are recursive functions that
those methods call. Each method is proved equal to a recursive specification
function of its inputs. The properties the
pipeline promises are proved as lemmas about those functions. Examples are
coverage of the sentences by the chunks, id numbering, the budget rule,
idempotence of the normaliser passes, and batches flattening back to the input.
The token counter is a parameter: `Counter`, any function from text to a count.

Modules and files:

| file | module | models |
|---|---|---|
| `text.dfy` | `Text` | Python's `strip`, `split`, `join` and `str(int)`, and `Concat` |
| `wrappers.dfy` | `Wrappers` | `Option` |
| `cleaning.dfy` | `Cleaning` | `_basic_cleaning`, `_final_cleanup` |
| `spacing.dfy` | `WordSpacing` | `_fix_word_spacing` |
| `line_passes.dfy` | `LinePasses` | `_remove_headers_footers`, `_normalize_whitespace`, `_preserve_structure` |
| `normalizer.dfy` | `Normalizer` | `normalize_text`, `normalize_batch`, `get_normalization_stats` |
| `sentences.dfy` | `Sentences` | `_split_into_sentences`, `_get_overlap_text` |
| `metadata_handler.dfy` | `Metadata` | `create_chunk_metadata`, `create_chunking_summary`, `format_chunk_for_output` |
| `chunker.dfy` | `Chunker` | `_chunk_text` |
| `page_driver.dfy` | `PageDriver` | `chunk_pages`, `format_chunks_for_output` |
| `batch_processor.dfy` | `Batches` | `create_batches`, `process_all_batches` |

## Where the code and its comments differ

The model follows the code in each case below.

- **Sentence punctuation.** The comment at chunking/chunker.py:201 says the
  punctuation is added back "if it was removed". But `re.split(r'[.!?]+')`
  (chunking/chunker.py:194) removes every terminator first. The `endswith` test
  at chunking/chunker.py:202 therefore never succeeds, and every sentence ends in
  one synthesized `.`; `!` and `?` are never kept. See
  `Sentences.CleanFragmentsAppendDot`.
- **`token_count`.** The parameter is described as the "Number of tokens in
  chunk" (chunking/metadata_handler.py:25). The code passes the running sum
  instead (chunking/chunker.py:134 and 166): the recount of the overlap seed plus
  the count of each sentence. The stripped chunk text is never recounted. See
  `Chunker.PageChunksTokens`.
- **Positions.** The positions are described as positions "in original text"
  (chunking/metadata_handler.py:23-24). Sentences are appended to the
  accumulator with no separator (chunking/chunker.py:151), so positions count
  characters of the concatenated sentences, not of the page text.
- **`start_position` can go back.** A reader would expect start positions to
  be non-decreasing. In the code, each chunk starts at the previous chunk's end
  minus the length of its overlap seed (chunking/chunker.py:146). The seed
  re-joins sentences with spaces the chunk did not have, so the seed can be
  longer than the tail it came from. `Chunker.PageChunksRecords` states the
  arithmetic as written.
- **Oversized sentences.** A reader would expect a sentence over the budget to
  form a chunk on its own. In the code it follows the overlap seed of the chunk
  before it (chunking/chunker.py:143-151).
- **Blank texts.** For an empty or all-whitespace text, `normalize_text` reports
  `original_length` 0, not the length of the input (input/normalizer.py:28-36).

## Model

| member | source | states |
|---|---|---|
| Text.NatToStringRoundTrip | chunking/metadata_handler.py:89-92 | the numbers printed in chunk headers are strings of decimal digits that read back as the number |
| Text.SplitJoin | input/normalizer.py:148-157 | joining lines without `\n` on `\n` and splitting again gives the same lines |
| Text.JoinSplit | input/normalizer.py:89-112 | splitting on `\n` and joining on `\n` gives the text back |
| Cleaning.RemoveControlsSpec | input/normalizer.py:75-76 | no character of the deleted control class is left; every other character is kept; a text without such characters is unchanged |
| Cleaning.ReplaceCrLfSpec | input/normalizer.py:79 | replacing `\r\n` introduces only newlines and leaves a text without `\r` unchanged |
| Cleaning.ReplaceCrSpec | input/normalizer.py:79 | after replacing `\r` no carriage return is left; only newlines are introduced; a text without `\r` is unchanged |
| Cleaning.CapNewlinesNoTriple | input/normalizer.py:81-82 | after the `\n{3,}` rewrite no three newlines are in a row |
| Cleaning.CapNewlinesKeeps | input/normalizer.py:81-82 | the rewrite introduces no character outside the input's own classes |
| Cleaning.CapNewlinesFixed | input/normalizer.py:81-82 | a text with no three newlines in a row is left unchanged |
| Cleaning.BasicCleaningSpec | input/normalizer.py:73-85 | `_basic_cleaning` output has no deleted control, no `\r` and no triple newline; text that is already clean passes through unchanged |
| Cleaning.BasicCleaningIdempotent | input/normalizer.py:73-85 | `_basic_cleaning` is idempotent |
| Cleaning.CollapseOnlySpaces | input/normalizer.py:177 | after collapsing runs of a whitespace class, every class character is a plain space |
| Cleaning.CollapseNoDoubleSpace | input/normalizer.py:177 | after collapsing, no two class characters are adjacent |
| Cleaning.CollapseFixed | input/normalizer.py:177 | a single-spaced text is left unchanged by the collapse |
| Cleaning.FinalCleanupSpec | input/normalizer.py:174-187 | the output is trimmed and single-spaced; it is empty exactly when the input is all whitespace; otherwise it ends in one of `.!?;:`; the `.` is added only when the collapsed, stripped text lacked such an ending |
| Cleaning.FinalCleanupIdempotent | input/normalizer.py:174-187 | `_final_cleanup` is idempotent |
| WordSpacing.InsertSpacesInserted | input/normalizer.py:121 | one `re.sub` pass only inserts spaces: every input character is kept in order |
| WordSpacing.InsertSpacesNoPair | input/normalizer.py:121 | after a pass, its own rule finds no adjacent pair to separate |
| WordSpacing.InsertSpacesKeepsNoPair | input/normalizer.py:121-137 | a pass creates no pair for any other rule |
| WordSpacing.InsertSpacesFixed | input/normalizer.py:121 | a text in which the rule finds no pair is left unchanged |
| WordSpacing.FixWordSpacingSpec | input/normalizer.py:114-140 | `_fix_word_spacing` only inserts spaces, and none of its five rules finds a pair in the result |
| WordSpacing.FixWordSpacingFixed | input/normalizer.py:114-140 | a text no rule applies to is left unchanged |
| WordSpacing.FixWordSpacingIdempotent | input/normalizer.py:114-140 | `_fix_word_spacing` is idempotent |
| LinePasses.MatchesAnyPattern | input/normalizer.py:100-105 | the pattern loop reports a match exactly when one of the six anchored, case-insensitive header/footer patterns matches the stripped line |
| LinePasses.RemoveHeadersFooters | input/normalizer.py:87-112 | the method's output is the joined list of lines kept by the loop (`HeadersFootersRemoved`) |
| LinePasses.KeptLinesSpec | input/normalizer.py:92-109 | no more lines come out than go in; every kept line is stripped, and is empty or not a header/footer |
| LinePasses.KeptLinesNoNewline | input/normalizer.py:92-109 | the loop puts no newline into a line |
| LinePasses.KeptLinesAll | input/normalizer.py:92-109 | only headers and footers are dropped: with none present, the output is every line stripped |
| LinePasses.KeptLinesFixed | input/normalizer.py:92-109 | stripped lines that are empty or not headers/footers come through unchanged |
| LinePasses.HeadersFootersRemovedIdempotent | input/normalizer.py:87-112 | removing headers and footers a second time changes nothing |
| LinePasses.DropLeadingEmptySpec | input/normalizer.py:151-152 | the leading loop leaves a suffix that starts with a non-empty line, dropping only empty lines |
| LinePasses.DropTrailingEmptySpec | input/normalizer.py:153-154 | the trailing loop leaves a prefix that ends with a non-empty line, dropping only empty lines |
| LinePasses.NormalizeWhitespace | input/normalizer.py:142-157 | the method's output is `WhitespaceNormalized` of its input |
| LinePasses.NormalizedLinesSpec | input/normalizer.py:144-154 | every line joined is stripped, holds no newline, and has blanks only as single spaces; the first and last lines are not empty |
| LinePasses.WhitespaceNormalizedSpec | input/normalizer.py:142-157 | the output has no tab and no double blank and is trimmed; it is empty exactly when no line survives; split on `\n`, it gives back the surviving lines |
| LinePasses.WhitespaceNormalizedIdempotent | input/normalizer.py:142-157 | normalising whitespace twice changes nothing |
| LinePasses.PreserveStructure | input/normalizer.py:159-172 | the method's output is `StructurePreserved` of its input |
| LinePasses.StructuredLinesAt | input/normalizer.py:164-169 | output line k is `HEADER: ` followed by the stripped input line k when that stripped line is an all-capitals heading, and input line k unchanged otherwise |
| LinePasses.StructuredLineFixed | input/normalizer.py:166-169 | a marked or kept line is not marked again, and no newline is added |
| LinePasses.StructurePreservedSpec | input/normalizer.py:159-172 | the pass keeps the number of lines, and running it twice changes nothing |
| Normalizer.WordsJoin | input/normalizer.py:61 | a trimmed, single-spaced text is its `split()` words joined by one space |
| Normalizer.JoinWords | input/normalizer.py:61 | `split()` of non-empty whitespace-free words joined by one space gives the words back |
| Normalizer.NameRoundTrip | input/normalizer.py:84 | each transformation label names its pass and no other |
| Normalizer.NormalizeText | input/normalizer.py:24-71 | the method's result is `Normalized(text, preserveStructure)` |
| Normalizer.RunPasses | input/normalizer.py:38-58 | the passes run in source order on the text, and the labels are recorded in that order, `preserve_structure` only when requested |
| Normalizer.NormalizedSpec | input/normalizer.py:24-71 | an empty or all-whitespace text gets the all-zero result. Otherwise the result has the original length and the labels of the passes run. The text is trimmed and single-spaced, ends in `.!?;:` when non-empty, and is its words joined by one space. `word_count` counts those words; `token_estimate` is `floor(1.3 * word_count)` |
| Normalizer.NormalizeBatch | input/normalizer.py:189-210 | one result per text, in order, each the structure-preserving normalisation of its text, tagged with its index |
| Normalizer.CountTransformations | input/normalizer.py:227-229 | the counting dictionary has a key exactly for each label that occurs, holding its number of occurrences |
| Normalizer.GetNormalizationStats | input/normalizer.py:212-240 | none for an empty list; otherwise the text count, the four sums and the label counts over all results |
| Normalizer.CountConcat | input/normalizer.py:223-225 | label counts add up over the concatenated lists |
| Normalizer.NormalizedLabels | input/normalizer.py:28-58 | with structure preserved, a blank text lists no label and any other text lists all six |
| Normalizer.BatchLabelCounts | input/normalizer.py:189-229 | over a batch's results, each label occurs once per non-blank text |
| Normalizer.BatchStatsCounts | input/normalizer.py:189-240 | the statistics of a batch list a label exactly when some text was not blank, and count each label once per non-blank text |
| Sentences.SplitTerminatorsShape | chunking/chunker.py:194 | `re.split(r'[.!?]+')` gives one more fragment than there are runs of terminators; no fragment holds a terminator; only the first and last can be empty; the first is empty exactly when the text is empty or starts with a terminator |
| Sentences.SplitTerminatorsConcat | chunking/chunker.py:194 | the fragments put together are the text with every terminator removed |
| Sentences.CleanFragmentsAppendDot | chunking/chunker.py:197-204 | the cleaning loop keeps each stripped non-blank fragment, in order, with exactly one `.` appended |
| Sentences.SentencesShape | chunking/chunker.py:183-206 | the sentences are the stripped non-blank fragments of the text, in order, each followed by `.` |
| Sentences.SplitIntoSentences | chunking/chunker.py:183-206 | the method's output is `SentencesOf(text)`, and every element is a sentence: a trimmed body without terminators followed by one `.` |
| Sentences.FitCountSpec | chunking/chunker.py:226-231 | every backward candidate up to the count fits the overlap budget, and the next one, if any, does not |
| Sentences.GrowIsTail | chunking/chunker.py:226-231 | the backward walk with its early `break` ends at the longest run of trailing sentences whose every candidate fits |
| Sentences.TailIsJoin | chunking/chunker.py:227 | the candidate of the last k sentences is those sentences joined by single spaces, plus a trailing space |
| Sentences.OverlapIsFittingTail | chunking/chunker.py:208-233 | the overlap is the longest fitting run of trailing sentences joined by single spaces; it is empty when the last sentence alone does not fit |
| Sentences.GetOverlapText | chunking/chunker.py:208-233 | the method returns `OverlapText` of the chunk, and the result is trimmed |
| Metadata.Preview | chunking/metadata_handler.py:42 | a text of at most 100 characters is kept whole; a longer one becomes its first 100 characters followed by `...` |
| Metadata.CreateChunkMetadataFields | chunking/metadata_handler.py:32-43 | every numeric field is copied from its argument; `text_length` is the text's length; the preview follows `Preview` |
| Metadata.AverageOrZero | chunking/metadata_handler.py:70-71 | zero when there are no chunks, otherwise the exact quotient (times the count it gives back the total) |
| Metadata.CreateChunkingSummary | chunking/metadata_handler.py:45-74 | the totals and budgets are echoed; the averages are 0 without chunks and the exact quotients otherwise |
| Metadata.FormatChunkLayout | chunking/metadata_handler.py:89-93 | the block is the header line, then the info line, then the chunk text followed by two newlines |
| Chunker.WindowInvariantHolds | chunking/chunker.py:118-152 | after every prefix of the sentences, the loop state satisfies the coverage, seed, record, counter and budget invariants |
| Chunker.ChunkText | chunking/chunker.py:93-181 | the method's result is `PageChunks`, whose meaning the three `PageChunks` lemmas below state |
| Chunker.ChunkStep | chunking/chunker.py:118-152 | one loop pass moves the program variables from the state after sentence i to the state after sentence i+1 |
| Chunker.CloseChunk | chunking/chunker.py:122-148 | the overflow branch emits the stripped chunk and its record, then reseeds with the overlap and the sentence |
| Chunker.FinalWindow | chunking/chunker.py:154-175 | without sentences there are no chunks and no carryover. Otherwise the non-empty accumulator becomes the last chunk with its record, and the carryover is its overlap |
| Chunker.PageChunksCover | chunking/chunker.py:93-181 | each chunk is its seed followed by a window of consecutive sentences, glued without separator. The windows tile the sentences in order. The first seed is empty and each later one is the previous chunk's overlap. Chunks are stripped and non-empty, and exist exactly when there are sentences. The carryover is the last chunk's overlap |
| Chunker.PageChunksRecords | chunking/chunker.py:118-172 | record k has id `start_id + k`, index `start_id - 1 + k`, `total_chunks` 0, the page number, the chunk's length and preview, and `end - start` equal to the length. The first chunk starts at the page offset; each later one starts at the previous end minus its seed's length |
| Chunker.PageChunksTokens | chunking/chunker.py:118-172 | a record's token count is its seed's recount plus its sentences' counts. Over the budget, a chunk holds a single sentence after its seed. Every chunk but the last was closed because the next sentence would exceed the budget |
| PageDriver.ChunkPages | chunking/chunker.py:21-91 | the method's result is `ChunkRun`: the page loop, the `total_chunks` backfill, the sums and the summary |
| PageDriver.PagePass | chunking/chunker.py:37-65 | one page moves the accumulators from the state after i pages to the state after i+1 pages |
| PageDriver.ChunkPage | chunking/chunker.py:50-55 | the call chunks the carryover-prefixed text exactly as the page chunker does |
| PageDriver.SetTotalChunks | chunking/chunker.py:67-70 | every record gets `total_chunks` set and is otherwise unchanged |
| PageDriver.WithTotal | chunking/chunker.py:67-70 | same length; record k is the old record k with `total_chunks` replaced |
| PageDriver.PageLoopChunked | chunking/chunker.py:41-65 | a page with text appends its chunks and records, moves the id by the number of chunks and the position by the page's own length, and replaces the carryover |
| PageDriver.PageLoopBlank | chunking/chunker.py:41-42 | a blank page changes no accumulator |
| PageDriver.RunSkipsBlank | chunking/chunker.py:37-65 | the run over all pages equals the run over the non-blank pages alone |
| PageDriver.BlankRun | chunking/chunker.py:21-91 | when every page is blank there are no chunks, and the summary has zero totals but counts all pages |
| PageDriver.RunPosition | chunking/chunker.py:45-64 | after the loop, the global position is the total length of the non-blank pages |
| PageDriver.RunAfterIds | chunking/chunker.py:33-65 | for a page chunker that numbers its chunks from the id it is given, ids across all pages run 1, 2, 3, … with index = id - 1, `total_chunks` still 0, each `text_length` the chunk's length, and the next id one past the number of chunks |
| PageDriver.ChunkRunIds | chunking/chunker.py:21-91 | in the result, chunk k has id k+1 and index k; every record's `total_chunks` is the number of chunks; the summary's totals are the number of chunks, the token sum and the length of all chunk texts together; it counts every page |
| PageDriver.FormatChunksForOutput | chunking/chunker.py:235-257 | the output is the header, info, text and empty line of each (chunk, record) pair `zip` yields, joined by newlines |
| PageDriver.OutputLinesLayout | chunking/chunker.py:246-255 | the output lines come in groups of four, one group per pair, in order |
| PageDriver.OutputIsBlocks | chunking/chunker.py:235-257 | for at least one pair, the output plus a final newline is the blocks `format_chunk_for_output` gives for each pair, concatenated |
| Batches.CreateBatches | embeddings/batch_processor.py:23-39 | the method's result is `BatchesOf(chunks, size)` |
| Batches.BatchesConcat | embeddings/batch_processor.py:33-36 | the batches put back together are the chunks in order |
| Batches.BatchesSizes | embeddings/batch_processor.py:33-36 | every batch holds 1 to `BATCH_SIZE` chunks, and every batch but the last exactly `BATCH_SIZE` |
| Batches.BatchesCount | embeddings/batch_processor.py:33-36 | there are `ceil(len(chunks) / BATCH_SIZE)` batches, and none exactly for no chunks |
| Batches.BatchesOfUnique | embeddings/batch_processor.py:33-36 | any split into consecutive batches of 1 to `BATCH_SIZE`, all but the last full, is the one `create_batches` makes |
| Batches.ProcessAllBatches | embeddings/batch_processor.py:101-127 | the result is `Collected` over the batches, numbered from 1 with the batch total passed along |
| Batches.CollectedConcat | embeddings/batch_processor.py:114-120 | the result is the outputs of the successful batches, in batch order, with nothing from a failed batch |
| Batches.CollectedCount | embeddings/batch_processor.py:114-120 | if each successful batch yields one output per chunk and all succeed, every chunk comes out; if none succeeds, the result is empty |

## Left out

- Token counting: `tiktoken` is a foreign library. The counter is a parameter, `Counter`, any function from text to a natural number. `TokenCounter.count_tokens` returns 0 for the empty string (chunking/token_counter.py:32-33); no proof here relies on that fact.
- `created_at`: a wall-clock timestamp. Neither the chunk record nor the summary carries it.
- Logging and `print` calls are left out, including the carryover message in `chunk_pages`.
- Page dictionaries: a page is a `Page(text, pageNumber)` value. The `.get` defaults (`''` and `0`) for missing keys are not modelled.
- `\d` and `\s`: `\d` is modelled as the ASCII digits, though Python's `str` patterns also accept other Unicode decimal digits. `\s` and `strip()` use Python's whitespace set for `str`.
- `re.IGNORECASE`: the header/footer patterns fold ASCII letters, plus the dotted/dotless I and the long s that Python folds onto `i` and `s`. Other Unicode case folds are not modelled.
- Normalizer.NormalizeBatch: the `except` branch is not modelled. Every pass is total in the model, so `normalize_text` cannot raise.
- Normalizer.GetNormalizationStats: `compression_ratio` and `average_words_per_text` are floats and are not modelled. The other six entries are.
- Normalizer.NormalizedSpec: `int(word_count * 1.3)` is modelled as the exact `word_count * 13 / 10`, rounded down. Floating-point rounding of the product is not modelled.
- Metadata.CreateChunkingSummary: the source wraps the summary in a one-key dictionary, `{'chunking_summary': {...}}`, and `chunk_pages` returns that wrapper as its `summary`. The model returns the inner record; the outer key is not modelled.
- Metadata.CreateChunkingSummary: the two averages are exact rationals (`real`), not binary floats.
- Transformation labels are an enumeration with the source's six strings as names (`Normalizer.NameRoundTrip`). The string list is not modelled.
- The chunker's configuration (`CHUNK_SIZE`, `OVERLAP_SIZE`) is a `Config` value. The source's defaults 1000 and 150 are the constants `Chunker.DefaultChunkSize` and `DefaultOverlapSize`.
- `BatchProcessor.process_batch`: the Azure OpenAI embedding call is outside this model. `process_batch` is a function parameter of `Batches.ProcessAllBatches` that returns the processed chunks and a success flag.
- `EmbeddingConfig.BATCH_SIZE` is a positive parameter, not the constant from embeddings/config.py. `time.sleep(BATCH_DELAY)` between batches is left out.
- In-place updates of Python dictionaries become new values. These are the `total_chunks` backfill, `batch_index`, and the accumulator lists. Aliasing between the returned lists and the records is not modelled.
- `TokenCounter.count_tokens_batch` and `get_token_info` are outside the modelled core. So are the PDF extractor, the summary generator, the embedding processor, the storage handler and `app.py`.
