/**
 * input/normalizer.py, TextNormalizer: normalize_text runs the six passes in
 * order and reports the result with its metrics; normalize_batch normalizes a
 * list of texts; get_normalization_stats sums the metrics of a list of results.
 */
module Normalizer {
  import opened Wrappers
  import opened Text
  import opened Cleaning
  import opened WordSpacing
  import opened LinePasses

  // ---------------------------------------------------------------------------
  // Words: Python's text.split() with no argument

  /** The length of the run of non-whitespace at the front of s. */
  function WordLength(s: string): (k: nat)
    ensures k <= |s|
    ensures forall i :: 0 <= i < k ==> !IsSpace(s[i])
    ensures k < |s| ==> IsSpace(s[k])
  {
    if s != [] && !IsSpace(s[0]) then 1 + WordLength(s[1..]) else 0
  }

  /** The maximal runs of non-whitespace, in order. */
  function Words(s: string): (r: seq<string>)
    ensures forall k :: 0 <= k < |r| ==> r[k] != [] && Avoids(r[k], IsSpace)
    decreases |s|
  {
    if s == [] then []
    else if IsSpace(s[0]) then Words(s[1..])
    else
      var k := WordLength(s);
      [s[..k]] + Words(s[k..])
  }

  /** A trimmed, single-spaced text is its words joined by one space. */
  lemma {:induction false} WordsJoin(s: string)
    requires Trimmed(s) && SingleSpaced(s, IsSpace)
    ensures Join(Words(s), " ") == s
    decreases |s|
  {
    if s != [] {
      var k := WordLength(s);
      WordsFront(s);
      if k == |s| {
        assert s[..k] == s && s[k..] == [];
      } else {
        var rest := s[k + 1..];
        SpacedRest(s, k);
        WordsJoin(rest);
        WordsFront(rest);
        WordsSkipSpace(s, k);
        JoinCons(s[..k], Words(rest), " ");
      }
    }
  }

  /** A text that starts with a word: that word, then the words of what follows it. */
  lemma WordsFront(s: string)
    requires s != [] && !IsSpace(s[0])
    ensures Words(s) == [s[..WordLength(s)]] + Words(s[WordLength(s)..])
  {
  }

  /** A space in front adds no word. */
  lemma WordsSkipSpace(s: string, k: nat)
    requires k < |s| && IsSpace(s[k])
    ensures Words(s[k..]) == Words(s[k + 1..])
  {
    assert s[k..][1..] == s[k + 1..];
  }

  /** After a word that ends before a trimmed, single-spaced text does: one space, then the rest of the text, again trimmed and single-spaced. */
  lemma SpacedRest(s: string, k: nat)
    requires Trimmed(s) && SingleSpaced(s, IsSpace)
    requires 0 < k < |s| && IsSpace(s[k])
    ensures k + 1 < |s| && s[k] == ' ' && !IsSpace(s[k + 1])
    ensures Trimmed(s[k + 1..]) && SingleSpaced(s[k + 1..], IsSpace)
    ensures s[..k] + " " + s[k + 1..] == s
  {
    assert s[k] == ' ' && k + 1 < |s|;
    assert !IsSpace(s[k + 1]);
    SingleSpacedSlice(s, k + 1, |s|, IsSpace);
    assert s[k + 1..][0] == s[k + 1];
  }

  /** Joining a part in front of at least one other. */
  lemma JoinCons(w: string, ws: seq<string>, sep: string)
    requires ws != []
    ensures Join([w] + ws, sep) == w + sep + Join(ws, sep)
  {
    assert ([w] + ws)[1..] == ws;
  }

  /** Splitting words joined by one space gives the words back. */
  lemma {:induction false} JoinWords(ws: seq<string>)
    requires forall k :: 0 <= k < |ws| ==> ws[k] != [] && Avoids(ws[k], IsSpace)
    ensures Words(Join(ws, " ")) == ws
    decreases |ws|
  {
    if |ws| == 1 {
      var w := ws[0];
      assert WordLength(w) == |w|;
      assert w[..|w|] == w;
    } else if |ws| > 1 {
      var w := ws[0];
      var rest := Join(ws[1..], " ");
      var j := Join(ws, " ");
      assert j == w + (" " + rest);
      assert j[|w|] == ' ';
      assert forall i :: 0 <= i < |w| ==> j[i] == w[i];
      assert WordLength(j) == |w|;
      JoinWords(ws[1..]);
      assert j[..|w|] == w;
      assert j[|w|..] == " " + rest;
      assert (" " + rest)[1..] == rest;
    }
  }

  // ---------------------------------------------------------------------------
  // normalize_text

  /** The entries of transformations_applied: one per pass that ran. */
  datatype Transformation =
    | BasicCleaningStep
    | RemoveHeadersFootersStep
    | FixWordSpacingStep
    | NormalizeWhitespaceStep
    | PreserveStructureStep
    | FinalCleanupStep
  {
    /** The string the pass appends. */
    function Name(): string
    {
      match this
      case BasicCleaningStep => "basic_cleaning"
      case RemoveHeadersFootersStep => "remove_headers_footers"
      case FixWordSpacingStep => "fix_word_spacing"
      case NormalizeWhitespaceStep => "normalize_whitespace"
      case PreserveStructureStep => "preserve_structure"
      case FinalCleanupStep => "final_cleanup"
    }
  }

  /** The transformation a recorded string names, if any. */
  function FromName(name: string): Option<Transformation>
  {
    if name == "basic_cleaning" then Some(BasicCleaningStep)
    else if name == "remove_headers_footers" then Some(RemoveHeadersFootersStep)
    else if name == "fix_word_spacing" then Some(FixWordSpacingStep)
    else if name == "normalize_whitespace" then Some(NormalizeWhitespaceStep)
    else if name == "preserve_structure" then Some(PreserveStructureStep)
    else if name == "final_cleanup" then Some(FinalCleanupStep)
    else None
  }

  /** Every recorded string names its transformation and no other, so counting transformations counts strings. */
  lemma NameRoundTrip(t: Transformation)
    ensures FromName(t.Name()) == Some(t)
  {
  }

  /** The dictionary normalize_text returns. */
  datatype NormalizationResult = NormalizationResult(
    normalizedText: string,
    originalLength: nat,
    normalizedLength: nat,
    transformationsApplied: seq<Transformation>,
    wordCount: nat,
    tokenEstimate: nat)

  /** The result for an empty or all-whitespace text. */
  const EmptyResult := NormalizationResult("", 0, 0, [], 0, 0)

  /** int(word_count * 1.3), in integer arithmetic. */
  function TokenEstimate(wordCount: nat): nat
  {
    wordCount * 13 / 10
  }

  /** The labels the passes append, in order. */
  function Labels(preserveStructure: bool): seq<Transformation>
  {
    [BasicCleaningStep, RemoveHeadersFootersStep, FixWordSpacingStep, NormalizeWhitespaceStep]
      + (if preserveStructure then [PreserveStructureStep] else [])
      + [FinalCleanupStep]
  }

  /** The text before the final cleanup. */
  function BeforeCleanup(text: string, preserveStructure: bool): string
  {
    var lines := HeadersFootersRemoved(BasicCleaning(text));
    var spaced := WhitespaceNormalized(FixWordSpacing(lines));
    if preserveStructure then StructurePreserved(spaced) else spaced
  }

  function Normalized(text: string, preserveStructure: bool): NormalizationResult
  {
    if AllSpace(text) then EmptyResult
    else
      var t := FinalCleanup(BeforeCleanup(text, preserveStructure));
      var words := |Words(t)|;
      NormalizationResult(t, |text|, |t|, Labels(preserveStructure), words, TokenEstimate(words))
  }

  method NormalizeText(text: string, preserveStructure: bool) returns (r: NormalizationResult)
    ensures r == Normalized(text, preserveStructure)
  {
    StripSpec(text);
    if text == [] || Strip(text) == [] {
      return EmptyResult;
    }
    var originalText := text;
    var t, transformations := RunPasses(text, preserveStructure);
    var wordCount := |Words(t)|;
    r := NormalizationResult(t, |originalText|, |t|, transformations, wordCount, TokenEstimate(wordCount));
  }

  /** Steps 1 to 6 of normalize_text: each pass rewrites the text and records its label. */
  method RunPasses(text: string, preserveStructure: bool) returns (t: string, transformations: seq<Transformation>)
    ensures t == FinalCleanup(BeforeCleanup(text, preserveStructure))
    ensures transformations == Labels(preserveStructure)
  {
    transformations := [];
    t := BasicCleaning(text);
    transformations := transformations + [BasicCleaningStep];
    t := RemoveHeadersFooters(t);
    transformations := transformations + [RemoveHeadersFootersStep];
    t := FixWordSpacing(t);
    transformations := transformations + [FixWordSpacingStep];
    t := NormalizeWhitespace(t);
    transformations := transformations + [NormalizeWhitespaceStep];
    if preserveStructure {
      t := PreserveStructure(t);
      transformations := transformations + [PreserveStructureStep];
    }
    t := FinalCleanup(t);
    transformations := transformations + [FinalCleanupStep];
    LabelsInOrder(preserveStructure);
  }

  /** The labels as the passes append them, one at a time. */
  lemma LabelsInOrder(preserveStructure: bool)
    ensures [] + [BasicCleaningStep] + [RemoveHeadersFootersStep] + [FixWordSpacingStep] + [NormalizeWhitespaceStep]
      + (if preserveStructure then [PreserveStructureStep] else []) + [FinalCleanupStep]
      == Labels(preserveStructure)
  {
  }

  /**
   * normalize_text reports zeros for an empty or all-whitespace text.
   * Otherwise it reports the original length and the labels of the passes it
   * ran; its text is trimmed, holds whitespace only as single spaces, ends in
   * one of .!?;: unless it is empty, and is its words joined by one space;
   * the token estimate is 1.3 times the word count, rounded down.
   */
  lemma NormalizedSpec(text: string, preserveStructure: bool)
    ensures var r := Normalized(text, preserveStructure);
      && (AllSpace(text) ==> r == EmptyResult)
      && (!AllSpace(text) ==>
        && r.originalLength == |text|
        && r.transformationsApplied == Labels(preserveStructure))
      && r.normalizedLength == |r.normalizedText|
      && Trimmed(r.normalizedText) && SingleSpaced(r.normalizedText, IsSpace)
      && (r.normalizedText != [] ==> IsClosing(r.normalizedText[|r.normalizedText| - 1]))
      && r.wordCount == |Words(r.normalizedText)|
      && Join(Words(r.normalizedText), " ") == r.normalizedText
      && r.tokenEstimate == r.wordCount * 13 / 10
      && r.wordCount <= r.tokenEstimate && r.tokenEstimate * 10 <= r.wordCount * 13
  {
    var r := Normalized(text, preserveStructure);
    if !AllSpace(text) {
      FinalCleanupSpec(BeforeCleanup(text, preserveStructure));
    }
    WordsJoin(r.normalizedText);
  }

  // ---------------------------------------------------------------------------
  // normalize_batch

  /** A result with the batch_index key the batch adds. */
  datatype BatchResult = BatchResult(result: NormalizationResult, batchIndex: nat)

  method NormalizeBatch(texts: seq<string>) returns (results: seq<BatchResult>)
    ensures |results| == |texts|
    ensures forall i :: 0 <= i < |texts| ==> results[i] == BatchResult(Normalized(texts[i], true), i)
  {
    results := [];
    var i := 0;
    while i < |texts|
      invariant 0 <= i <= |texts|
      invariant |results| == i
      invariant forall j :: 0 <= j < i ==> results[j] == BatchResult(Normalized(texts[j], true), j)
    {
      var result := NormalizeText(texts[i], true);
      results := results + [BatchResult(result, i)];
      i := i + 1;
    }
  }

  // ---------------------------------------------------------------------------
  // get_normalization_stats

  /** The dictionary get_normalization_stats returns for a non-empty list, without its two float ratios. */
  datatype NormalizationStats = NormalizationStats(
    totalTexts: nat,
    totalOriginalLength: nat,
    totalNormalizedLength: nat,
    totalWords: nat,
    totalEstimatedTokens: nat,
    transformationCounts: map<Transformation, nat>)

  function OriginalLength(r: NormalizationResult): nat { r.originalLength }
  function NormalizedLength(r: NormalizationResult): nat { r.normalizedLength }
  function WordCount(r: NormalizationResult): nat { r.wordCount }
  function TokenCount(r: NormalizationResult): nat { r.tokenEstimate }

  /** sum(field(r) for r in results) */
  function Sum(results: seq<NormalizationResult>, field: NormalizationResult -> nat): nat
  {
    if results == [] then 0 else Sum(results[..|results| - 1], field) + field(results[|results| - 1])
  }

  /** all_transformations: every result's labels, one list after the other. */
  function AllTransformations(results: seq<NormalizationResult>): seq<Transformation>
  {
    if results == [] then []
    else AllTransformations(results[..|results| - 1]) + results[|results| - 1].transformationsApplied
  }

  /** How often x occurs in xs. */
  function Count(xs: seq<Transformation>, x: Transformation): nat
  {
    if xs == [] then 0 else Count(xs[..|xs| - 1], x) + (if xs[|xs| - 1] == x then 1 else 0)
  }

  /** The counting loop: one entry per distinct label, holding how often it occurs. */
  method CountTransformations(all: seq<Transformation>) returns (counts: map<Transformation, nat>)
    ensures forall t :: t in counts <==> t in all
    ensures forall t :: t in counts ==> counts[t] == Count(all, t)
  {
    counts := map[];
    var i := 0;
    while i < |all|
      invariant 0 <= i <= |all|
      invariant forall t :: t in counts <==> t in all[..i]
      invariant forall t :: t in counts ==> counts[t] == Count(all[..i], t)
    {
      var trans := all[i];
      assert all[..i + 1][..i] == all[..i];
      assert forall t :: t in all[..i + 1] <==> t in all[..i] || t == trans;
      var previous := if trans in counts then counts[trans] else 0;
      assert trans !in counts ==> Count(all[..i], trans) == 0 by {
        if trans !in counts {
          CountAbsent(all[..i], trans);
        }
      }
      counts := counts[trans := previous + 1];
      i := i + 1;
    }
    assert all[..i] == all;
  }

  lemma {:induction false} CountAbsent(xs: seq<Transformation>, x: Transformation)
    requires x !in xs
    ensures Count(xs, x) == 0
    decreases |xs|
  {
    if xs != [] {
      assert forall t :: t in xs[..|xs| - 1] ==> t in xs;
      CountAbsent(xs[..|xs| - 1], x);
    }
  }

  function Stats(results: seq<NormalizationResult>): Option<NormalizationStats>
  {
    if results == [] then None
    else
      var original := Sum(results, OriginalLength);
      var normalized := Sum(results, NormalizedLength);
      var words := Sum(results, WordCount);
      var all := AllTransformations(results);
      Some(NormalizationStats(
        |results|,
        original,
        normalized,
        words,
        Sum(results, TokenCount),
        map t | t in all :: Count(all, t)))
  }

  method GetNormalizationStats(results: seq<NormalizationResult>) returns (stats: Option<NormalizationStats>)
    ensures stats == Stats(results)
  {
    if results == [] {
      return None;
    }
    var totalOriginal := Sum(results, OriginalLength);
    var totalNormalized := Sum(results, NormalizedLength);
    var totalWords := Sum(results, WordCount);
    var totalTokens := Sum(results, TokenCount);
    var allTransformations: seq<Transformation> := [];
    var i := 0;
    while i < |results|
      invariant 0 <= i <= |results|
      invariant allTransformations == AllTransformations(results[..i])
    {
      assert results[..i + 1][..i] == results[..i];
      allTransformations := allTransformations + results[i].transformationsApplied;
      i := i + 1;
    }
    assert results[..i] == results;
    var transformationCounts := CountTransformations(allTransformations);
    assert transformationCounts == map t | t in allTransformations :: Count(allTransformations, t);
    stats := Some(NormalizationStats(
      |results|, totalOriginal, totalNormalized, totalWords, totalTokens, transformationCounts));
  }

  lemma {:induction false} CountConcat(a: seq<Transformation>, b: seq<Transformation>, x: Transformation)
    ensures Count(a + b, x) == Count(a, x) + Count(b, x)
    decreases |b|
  {
    if b != [] {
      var ab := a + b;
      assert ab[..|ab| - 1] == a + b[..|b| - 1];
      assert ab[|ab| - 1] == b[|b| - 1];
      CountConcat(a, b[..|b| - 1], x);
    } else {
      assert a + b == a;
    }
  }

  /** The number of texts that are not empty or all whitespace. */
  function NonBlankCount(texts: seq<string>): nat
  {
    if texts == [] then 0 else NonBlankCount(texts[..|texts| - 1]) + (if AllSpace(texts[|texts| - 1]) then 0 else 1)
  }

  /** Each label occurs once among the labels of a text normalized with structure preserved. */
  lemma LabelsOnce(step: Transformation)
    ensures Count(Labels(true), step) == 1
  {
    var l := Labels(true);
    assert l == [BasicCleaningStep, RemoveHeadersFootersStep, FixWordSpacingStep, NormalizeWhitespaceStep, PreserveStructureStep, FinalCleanupStep];
    assert Count(l[..1], step) == (if l[0] == step then 1 else 0);
    assert l[..2][..1] == l[..1] && l[..3][..2] == l[..2] && l[..4][..3] == l[..3];
    assert l[..5][..4] == l[..4] && l[..5] == l[..|l| - 1];
    assert Count(l[..2], step) == Count(l[..1], step) + (if l[1] == step then 1 else 0);
    assert Count(l[..3], step) == Count(l[..2], step) + (if l[2] == step then 1 else 0);
    assert Count(l[..4], step) == Count(l[..3], step) + (if l[3] == step then 1 else 0);
    assert Count(l[..5], step) == Count(l[..4], step) + (if l[4] == step then 1 else 0);
  }

  lemma AllTransformationsLast(results: seq<NormalizationResult>)
    requires results != []
    ensures AllTransformations(results)
      == AllTransformations(results[..|results| - 1]) + results[|results| - 1].transformationsApplied
  {
  }

  /** The labels normalize_text reports with structure preserved: all six for a text with content, none for a blank one. */
  lemma NormalizedLabels(text: string)
    ensures Normalized(text, true).transformationsApplied == if AllSpace(text) then [] else Labels(true)
  {
  }

  /**
   * Over the results of a batch, every label is counted once per text
   * that was not blank: the blank ones report no transformation at all.
   */
  lemma BatchLabelCounts(texts: seq<string>, results: seq<NormalizationResult>, step: Transformation)
    requires |results| == |texts|
    requires forall i :: 0 <= i < |texts| ==> results[i] == Normalized(texts[i], true)
    ensures Count(AllTransformations(results), step) == NonBlankCount(texts)
  {
    BatchLabels(texts, results);
    LabelCounts(texts, results, step);
  }

  /** Every result of a batch lists no label for a blank text and all of them otherwise. */
  lemma BatchLabels(texts: seq<string>, results: seq<NormalizationResult>)
    requires |results| == |texts|
    requires forall i :: 0 <= i < |texts| ==> results[i] == Normalized(texts[i], true)
    ensures forall i :: 0 <= i < |texts| ==>
      results[i].transformationsApplied == if AllSpace(texts[i]) then [] else Labels(true)
  {
    forall i | 0 <= i < |texts|
      ensures results[i].transformationsApplied == if AllSpace(texts[i]) then [] else Labels(true)
    {
      NormalizedLabels(texts[i]);
    }
  }

  /** One more result's labels: blank texts add nothing, the others one of each label. */
  lemma LabelStep(before: seq<Transformation>, labels: seq<Transformation>, blank: bool, step: Transformation)
    requires labels == if blank then [] else Labels(true)
    ensures Count(before + labels, step) == Count(before, step) + (if blank then 0 else 1)
  {
    CountConcat(before, labels, step);
    if !blank {
      LabelsOnce(step);
    }
  }

  lemma {:induction false} LabelCounts(texts: seq<string>, results: seq<NormalizationResult>, step: Transformation)
    requires |results| == |texts|
    requires forall i :: 0 <= i < |texts| ==>
      results[i].transformationsApplied == if AllSpace(texts[i]) then [] else Labels(true)
    ensures Count(AllTransformations(results), step) == NonBlankCount(texts)
    decreases |texts|
  {
    if texts != [] {
      var n := |texts|;
      LabelCounts(texts[..n - 1], results[..n - 1], step);
      AllTransformationsLast(results);
      LabelStep(AllTransformations(results[..n - 1]), results[n - 1].transformationsApplied, AllSpace(texts[n - 1]), step);
    }
  }

  lemma {:induction false} CountPresent(xs: seq<Transformation>, x: Transformation)
    requires x in xs
    ensures Count(xs, x) > 0
    decreases |xs|
  {
    if xs[|xs| - 1] != x {
      assert x in xs[..|xs| - 1] by {
        var k :| 0 <= k < |xs| && xs[k] == x;
        assert xs[..|xs| - 1][k] == x;
      }
      CountPresent(xs[..|xs| - 1], x);
    }
  }

  /**
   * get_normalization_stats over the results of normalize_batch: every label
   * is counted once per text that was not blank, and no label is listed when
   * all texts were blank.
   */
  lemma BatchStatsCounts(texts: seq<string>, results: seq<NormalizationResult>)
    requires |results| == |texts| && texts != []
    requires forall i :: 0 <= i < |texts| ==> results[i] == Normalized(texts[i], true)
    ensures Stats(results).Some?
    ensures forall step :: step in Stats(results).value.transformationCounts <==> NonBlankCount(texts) > 0
    ensures forall step :: step in Stats(results).value.transformationCounts ==>
      Stats(results).value.transformationCounts[step] == NonBlankCount(texts)
  {
    BatchLabels(texts, results);
    LabeledStatsCounts(texts, results);
  }

  lemma LabeledStatsCounts(texts: seq<string>, results: seq<NormalizationResult>)
    requires |results| == |texts| && texts != []
    requires forall i :: 0 <= i < |texts| ==>
      results[i].transformationsApplied == if AllSpace(texts[i]) then [] else Labels(true)
    ensures Stats(results).Some?
    ensures forall step :: step in Stats(results).value.transformationCounts <==> NonBlankCount(texts) > 0
    ensures forall step :: step in Stats(results).value.transformationCounts ==>
      Stats(results).value.transformationCounts[step] == NonBlankCount(texts)
  {
    var all := AllTransformations(results);
    forall step: Transformation
      ensures step in all <==> NonBlankCount(texts) > 0
      ensures Count(all, step) == NonBlankCount(texts)
    {
      LabelCounts(texts, results, step);
      if step in all {
        CountPresent(all, step);
      } else {
        CountAbsent(all, step);
      }
    }
  }
}
