/**
 * chunking/metadata_handler.py: the per-chunk record, the run summary and the
 * text block printed for one chunk. All three are pure constructors.
 */
module Metadata {
  import opened Text

  /** How many characters of a chunk the record's preview keeps. */
  const PreviewLength: nat := 100

  /** The per-chunk record (created_at, a wall-clock timestamp, is not modelled). */
  datatype ChunkMetadata = ChunkMetadata(
    chunkId: int,
    chunkIndex: int,
    totalChunks: int,
    sourcePage: int,
    startPosition: int,
    endPosition: int,
    textLength: nat,
    tokenCount: int,
    chunkTextPreview: string)

  /** The chunk_text_preview field: the text itself, or its first 100 characters and "...". */
  function Preview(text: string): (p: string)
    ensures |p| <= PreviewLength + 3
    ensures |text| <= PreviewLength ==> p == text
    ensures |text| > PreviewLength ==> |p| == PreviewLength + 3 && p[..PreviewLength] == text[..PreviewLength] && p[PreviewLength..] == "..."
  {
    if |text| > PreviewLength then text[..PreviewLength] + "..." else text
  }

  /** create_chunk_metadata: every number is copied from the arguments; the length and preview come from the text. */
  function CreateChunkMetadata(
    chunkId: int, chunkText: string, sourcePage: int, startPos: int, endPos: int,
    tokenCount: int, chunkIndex: int, totalChunks: int): ChunkMetadata
  {
    ChunkMetadata(chunkId, chunkIndex, totalChunks, sourcePage, startPos, endPos, |chunkText|, tokenCount, Preview(chunkText))
  }

  /** Every number is copied from its argument; text_length is the text's length and the preview follows Preview. */
  lemma CreateChunkMetadataFields(
    chunkId: int, chunkText: string, sourcePage: int, startPos: int, endPos: int,
    tokenCount: int, chunkIndex: int, totalChunks: int)
    ensures var m := CreateChunkMetadata(chunkId, chunkText, sourcePage, startPos, endPos, tokenCount, chunkIndex, totalChunks);
      && m.chunkId == chunkId && m.chunkIndex == chunkIndex && m.totalChunks == totalChunks
      && m.sourcePage == sourcePage && m.startPosition == startPos && m.endPosition == endPos
      && m.tokenCount == tokenCount && m.textLength == |chunkText|
      && |m.chunkTextPreview| <= PreviewLength + 3
      && (|chunkText| <= PreviewLength ==> m.chunkTextPreview == chunkText)
  {
  }

  /**
   * The run summary. Python's true division gives floats; the model keeps the
   * exact quotient as a real (created_at is not modelled).
   */
  datatype ChunkingSummary = ChunkingSummary(
    totalChunks: int,
    totalTokens: int,
    totalCharacters: int,
    chunkSize: int,
    overlapSize: int,
    sourcePages: int,
    averageTokensPerChunk: real,
    averageCharactersPerChunk: real)

  /** Python's `total / count if count > 0 else 0`. */
  function AverageOrZero(total: int, count: int): (a: real)
    ensures count <= 0 ==> a == 0.0
    ensures count > 0 ==> a * count as real == total as real
  {
    if count > 0 then total as real / count as real else 0.0
  }

  /** create_chunking_summary: the totals and budgets are echoed; the averages are 0 when there are no chunks. */
  function CreateChunkingSummary(
    totalChunks: int, totalTokens: int, totalCharacters: int,
    chunkSize: int, overlapSize: int, sourcePages: int): (s: ChunkingSummary)
    ensures s.totalChunks == totalChunks && s.totalTokens == totalTokens && s.totalCharacters == totalCharacters
    ensures s.chunkSize == chunkSize && s.overlapSize == overlapSize && s.sourcePages == sourcePages
    ensures totalChunks == 0 ==> s.averageTokensPerChunk == 0.0 && s.averageCharactersPerChunk == 0.0
    ensures totalChunks > 0 ==> s.averageTokensPerChunk * totalChunks as real == totalTokens as real
    ensures totalChunks > 0 ==> s.averageCharactersPerChunk * totalChunks as real == totalCharacters as real
  {
    ChunkingSummary(totalChunks, totalTokens, totalCharacters, chunkSize, overlapSize, sourcePages,
      AverageOrZero(totalTokens, totalChunks), AverageOrZero(totalCharacters, totalChunks))
  }

  /** The fixed parts of the two output lines. */
  const HeaderOpen: string := "=== CHUNK "
  const HeaderClose: string := " ==="
  const PageLabel: string := "Page: "
  const TokensLabel: string := " | Tokens: "
  const PositionLabel: string := " | Position: "

  /** The header line "=== CHUNK {id} ===" used by both output formatters. */
  function ChunkHeader(chunkId: int): string
  {
    HeaderOpen + IntToString(chunkId) + HeaderClose
  }

  /** The line "Page: {page} | Tokens: {tokens} | Position: {start}-{end}". */
  function InfoLine(m: ChunkMetadata): string
  {
    PageLabel + IntToString(m.sourcePage) + TokensLabel + IntToString(m.tokenCount)
      + PositionLabel + IntToString(m.startPosition) + "-" + IntToString(m.endPosition)
  }

  /** format_chunk_for_output: the header line, the info line, then the chunk text and a blank line. */
  function FormatChunkForOutput(chunkId: int, chunkText: string, m: ChunkMetadata): string
  {
    ChunkHeader(chunkId) + "\n" + (InfoLine(m) + "\n" + (chunkText + "\n" + "\n"))
  }

  /**
   * The block starts with the header line and its newline, ends with the chunk
   * text and two newlines, and holds exactly the info line and its newline in
   * between.
   */
  lemma FormatChunkLayout(chunkId: int, chunkText: string, m: ChunkMetadata)
    ensures var r := FormatChunkForOutput(chunkId, chunkText, m);
      && |r| == |ChunkHeader(chunkId)| + |InfoLine(m)| + |chunkText| + 4
      && r[..|ChunkHeader(chunkId)| + 1] == ChunkHeader(chunkId) + "\n"
      && r[|r| - |chunkText| - 2..] == chunkText + "\n\n"
      && r[|ChunkHeader(chunkId)| + 1..|r| - |chunkText| - 2] == InfoLine(m) + "\n"
  {
    var h := ChunkHeader(chunkId) + "\n";
    var i := InfoLine(m) + "\n";
    var t := chunkText + "\n" + "\n";
    var r := FormatChunkForOutput(chunkId, chunkText, m);
    assert r == h + i + t;
    assert r[..|h|] == h;
    assert r[|h| + |i|..] == t;
    assert r[|h|..|h| + |i|] == i;
  }
}
