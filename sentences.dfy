/**
 * The sentence splitter and the overlap computation of chunking/chunker.py
 * (_split_into_sentences and _get_overlap_text), with the token counter they use.
 */
module Sentences {
  import opened Text

  /**
   * The token counter of chunking/token_counter.py. Its tokenizer is a foreign
   * library, so the model takes it as a parameter: any total function from text
   * to a count.
   */
  type Counter = string -> nat

  /** One of the characters of the class [.!?] that sentences are split on. */
  predicate IsTerminator(c: char) {
    c == '.' || c == '!' || c == '?'
  }

  predicate NoTerminator(s: string) {
    forall i :: 0 <= i < |s| ==> !IsTerminator(s[i])
  }

  /** The text with every terminator removed. */
  function RemoveTerminators(s: string): string
  {
    if s == [] then [] else (if IsTerminator(s[0]) then [] else [s[0]]) + RemoveTerminators(s[1..])
  }

  /** The number of maximal runs of terminators in s, counted at the end of each run. */
  function RunCount(s: string): nat
  {
    if s == [] then 0
    else (if IsTerminator(s[0]) && (|s| == 1 || !IsTerminator(s[1])) then 1 else 0) + RunCount(s[1..])
  }

  /** re.split(r'[.!?]+', s): the fragments between maximal runs of terminators. */
  function SplitTerminators(s: string): (r: seq<string>)
    ensures r != []
    decreases |s|
  {
    if s == [] then [""]
    else
      var rest := SplitTerminators(s[1..]);
      if IsTerminator(s[0]) then
        if |s| > 1 && IsTerminator(s[1]) then rest else [""] + rest
      else
        [[s[0]] + rest[0]] + rest[1..]
  }

  /**
   * There is one more fragment than there are runs of terminators, no fragment
   * holds a terminator, and only the first and the last fragment can be empty.
   */
  lemma {:induction false} SplitTerminatorsShape(s: string)
    ensures |SplitTerminators(s)| == RunCount(s) + 1
    ensures forall i :: 0 <= i < |SplitTerminators(s)| ==> NoTerminator(SplitTerminators(s)[i])
    ensures forall i :: 0 < i < |SplitTerminators(s)| - 1 ==> SplitTerminators(s)[i] != []
    ensures SplitTerminators(s)[0] == [] <==> s == [] || IsTerminator(s[0])
    decreases |s|
  {
    if s != [] {
      var rest := SplitTerminators(s[1..]);
      SplitTerminatorsShape(s[1..]);
      var r := SplitTerminators(s);
      if IsTerminator(s[0]) {
        if !(|s| > 1 && IsTerminator(s[1])) {
          assert r == [""] + rest;
          assert forall i :: 0 < i < |r| ==> r[i] == rest[i - 1];
        }
      } else {
        var head := [s[0]] + rest[0];
        assert r == [head] + rest[1..];
        assert forall i :: 0 < i < |r| ==> r[i] == rest[i];
        assert NoTerminator(head) by {
          forall i | 0 <= i < |head| ensures !IsTerminator(head[i]) {
            if i > 0 { assert head[i] == rest[0][i - 1]; }
          }
        }
      }
    }
  }

  /** Concatenating the fragments gives back the text without its terminators. */
  lemma {:induction false} SplitTerminatorsConcat(s: string)
    ensures Concat(SplitTerminators(s)) == RemoveTerminators(s)
    decreases |s|
  {
    if s != [] {
      SplitTerminatorsConcat(s[1..]);
      SplitConcatStep(s);
    }
  }

  /** The first character adds itself to the concatenated fragments, unless it is a terminator. */
  lemma SplitConcatStep(s: string)
    requires s != []
    ensures Concat(SplitTerminators(s)) == (if IsTerminator(s[0]) then "" else [s[0]]) + Concat(SplitTerminators(s[1..]))
  {
    var rest := SplitTerminators(s[1..]);
    if IsTerminator(s[0]) {
      if !(|s| > 1 && IsTerminator(s[1])) {
        ConcatCons("", rest);
      }
    } else {
      ConcatCons([s[0]] + rest[0], rest[1..]);
      ConcatCons(rest[0], rest[1..]);
      assert [rest[0]] + rest[1..] == rest;
    }
  }

  /** Python's endswith(('.', '!', '?')) test, and the '.' the source appends when it fails. */
  function Punctuate(t: string): string
  {
    if t != [] && IsTerminator(t[|t| - 1]) then t else t + "."
  }

  /** The cleaning loop of _split_into_sentences, as a function of the fragments seen so far. */
  function CleanFragments(fragments: seq<string>): seq<string>
  {
    if fragments == [] then []
    else
      var done := CleanFragments(fragments[..|fragments| - 1]);
      var t := Strip(fragments[|fragments| - 1]);
      if t == [] then done else done + [Punctuate(t)]
  }

  /** What _split_into_sentences returns for a text. */
  function SentencesOf(text: string): seq<string>
  {
    CleanFragments(SplitTerminators(text))
  }

  /**
   * A sentence as the splitter emits it: a non-empty body with no whitespace at
   * either end and no terminator, followed by exactly one '.'.
   */
  predicate IsSentence(s: string) {
    && |s| >= 2
    && s[|s| - 1] == '.'
    && Trimmed(s[..|s| - 1])
    && NoTerminator(s[..|s| - 1])
  }

  lemma SentenceIsTrimmed(s: string)
    requires IsSentence(s)
    ensures Trimmed(s) && s != []
  {
    assert s[0] == s[..|s| - 1][0];
  }

  predicate AllSentences(ss: seq<string>) {
    forall i :: 0 <= i < |ss| ==> IsSentence(ss[i])
  }

  /** The stripped, non-blank fragments, in order: what the cleaning loop keeps. */
  function NonBlankFragments(fragments: seq<string>): seq<string>
  {
    if fragments == [] then []
    else
      var done := NonBlankFragments(fragments[..|fragments| - 1]);
      var t := Strip(fragments[|fragments| - 1]);
      if t == [] then done else done + [t]
  }

  /**
   * Because the split removes every terminator, the endswith test never succeeds:
   * each kept fragment is stripped and gets exactly one '.' appended.
   */
  lemma {:induction false} CleanFragmentsAppendDot(fragments: seq<string>)
    requires forall i :: 0 <= i < |fragments| ==> NoTerminator(fragments[i])
    ensures var ss := CleanFragments(fragments); var ts := NonBlankFragments(fragments);
      && |ss| == |ts|
      && forall i :: 0 <= i < |ss| ==> ss[i] == ts[i] + "." && IsSentence(ss[i])
    decreases |fragments|
  {
    if fragments != [] {
      var init := fragments[..|fragments| - 1];
      CleanFragmentsAppendDot(init);
      var f := fragments[|fragments| - 1];
      var t := Strip(f);
      if t != [] {
        StripSpec(f);
        assert NoTerminator(t) by {
          forall i | 0 <= i < |t| ensures !IsTerminator(t[i]) {
            assert t[i] == f[StripStart(f) + i];
          }
        }
        assert Punctuate(t) == t + ".";
        var s := t + ".";
        assert s[..|s| - 1] == t;
      }
    }
  }

  /**
   * Every sentence is a stripped non-blank fragment of the text with one '.'
   * appended, in the order of the text.
   */
  lemma SentencesShape(text: string)
    ensures var ss := SentencesOf(text); var ts := NonBlankFragments(SplitTerminators(text));
      && |ss| == |ts|
      && forall i :: 0 <= i < |ss| ==> ss[i] == ts[i] + "." && IsSentence(ss[i])
  {
    SplitTerminatorsShape(text);
    CleanFragmentsAppendDot(SplitTerminators(text));
  }

  /** _split_into_sentences: split on runs of terminators, strip, drop blanks, append '.'. */
  method SplitIntoSentences(text: string) returns (sentences: seq<string>)
    ensures sentences == SentencesOf(text)
    ensures AllSentences(sentences)
  {
    var fragments := SplitTerminators(text);
    var cleaned: seq<string> := [];
    var i := 0;
    while i < |fragments|
      invariant 0 <= i <= |fragments|
      invariant cleaned == CleanFragments(fragments[..i])
    {
      assert fragments[..i + 1][..i] == fragments[..i];
      var sentence := Strip(fragments[i]);
      if sentence != [] {
        if !IsTerminator(sentence[|sentence| - 1]) {
          sentence := sentence + ".";
        }
        cleaned := cleaned + [sentence];
      }
      i := i + 1;
    }
    assert fragments[..i] == fragments;
    sentences := cleaned;
    SentencesShape(text);
  }

  // ---------------------------------------------------------------------------
  // Overlap

  /**
   * The backward walk of _get_overlap_text: prepend the last remaining sentence
   * and a space to the candidate while the token count stays within the budget;
   * stop at the first sentence that would exceed it.
   */
  function Grow(count: Counter, overlapSize: int, sentences: seq<string>, acc: string): string
  {
    if sentences == [] then acc
    else
      var test := sentences[|sentences| - 1] + " " + acc;
      if count(test) <= overlapSize then Grow(count, overlapSize, sentences[..|sentences| - 1], test)
      else acc
  }

  /** What _get_overlap_text returns for a chunk. */
  function OverlapText(count: Counter, overlapSize: int, chunkText: string): string
  {
    if chunkText == [] then "" else Strip(Grow(count, overlapSize, SentencesOf(chunkText), ""))
  }

  /** The candidate built from the last k sentences: each followed by one space. */
  function Tail(sentences: seq<string>, k: nat): string
    requires k <= |sentences|
  {
    if k == 0 then "" else sentences[|sentences| - k] + " " + Tail(sentences, k - 1)
  }

  /**
   * How many trailing sentences fit: starting from k, the largest r such that every
   * candidate of k+1 .. r sentences is within the budget.
   */
  function FitCount(count: Counter, overlapSize: int, sentences: seq<string>, k: nat): (r: nat)
    requires k <= |sentences|
    ensures k <= r <= |sentences|
    decreases |sentences| - k
  {
    if k < |sentences| && count(Tail(sentences, k + 1)) <= overlapSize then
      FitCount(count, overlapSize, sentences, k + 1)
    else k
  }

  /** Every candidate of k+1 .. FitCount sentences fits the budget, and the next one, if any, does not. */
  lemma {:induction false} FitCountSpec(count: Counter, overlapSize: int, sentences: seq<string>, k: nat)
    requires k <= |sentences|
    ensures var r := FitCount(count, overlapSize, sentences, k);
      && (forall j :: k < j <= r ==> count(Tail(sentences, j)) <= overlapSize)
      && (r < |sentences| ==> count(Tail(sentences, r + 1)) > overlapSize)
    decreases |sentences| - k
  {
    if k < |sentences| && count(Tail(sentences, k + 1)) <= overlapSize {
      FitCountSpec(count, overlapSize, sentences, k + 1);
    }
  }

  lemma {:induction false} GrowIsTail(count: Counter, overlapSize: int, sentences: seq<string>, j: nat)
    requires j <= |sentences|
    ensures Grow(count, overlapSize, sentences[..|sentences| - j], Tail(sentences, j))
         == Tail(sentences, FitCount(count, overlapSize, sentences, j))
    decreases |sentences| - j
  {
    var n := |sentences|;
    if j < n {
      GrowStep(count, overlapSize, sentences, j);
      FitStep(count, overlapSize, sentences, j);
      if count(Tail(sentences, j + 1)) <= overlapSize {
        GrowIsTail(count, overlapSize, sentences, j + 1);
      }
    } else {
      assert sentences[..n - j] == [];
    }
  }

  lemma FitStep(count: Counter, overlapSize: int, sentences: seq<string>, j: nat)
    requires j < |sentences|
    ensures FitCount(count, overlapSize, sentences, j)
         == if count(Tail(sentences, j + 1)) <= overlapSize then FitCount(count, overlapSize, sentences, j + 1) else j
  {
  }

  /** One step of the backward walk: the candidate grows by the next sentence back exactly when it fits. */
  lemma GrowStep(count: Counter, overlapSize: int, sentences: seq<string>, j: nat)
    requires j < |sentences|
    ensures Grow(count, overlapSize, sentences[..|sentences| - j], Tail(sentences, j))
         == if count(Tail(sentences, j + 1)) <= overlapSize
            then Grow(count, overlapSize, sentences[..|sentences| - (j + 1)], Tail(sentences, j + 1))
            else Tail(sentences, j)
  {
    var n := |sentences|;
    var rest := sentences[..n - j];
    assert rest[|rest| - 1] == sentences[n - (j + 1)];
    assert rest[..|rest| - 1] == sentences[..n - (j + 1)];
  }

  /** Python's " ".join(sentences). */
  function JoinSpace(sentences: seq<string>): string
  {
    Join(sentences, " ")
  }

  lemma {:induction false} TailIsJoin(sentences: seq<string>, k: nat)
    requires k <= |sentences| && AllSentences(sentences)
    ensures k > 0 ==> Tail(sentences, k) == JoinSpace(sentences[|sentences| - k..]) + " "
    ensures Trimmed(JoinSpace(sentences[|sentences| - k..]))
    ensures k > 0 ==> JoinSpace(sentences[|sentences| - k..]) != []
  {
    var n := |sentences|;
    var suffix := sentences[n - k..];
    if k > 0 {
      var s := sentences[n - k];
      SentenceIsTrimmed(s);
      TailIsJoin(sentences, k - 1);
      assert suffix[1..] == sentences[n - (k - 1)..];
      if k == 1 {
        assert JoinSpace(suffix) == s;
      } else {
        var rest := JoinSpace(suffix[1..]);
        assert JoinSpace(suffix) == s + " " + rest;
        assert (s + " " + rest)[0] == s[0];
        assert (s + " " + rest)[|s + " " + rest| - 1] == rest[|rest| - 1];
      }
    }
  }

  /**
   * _get_overlap_text returns the longest run of trailing sentences whose every
   * backward candidate fits the overlap budget, joined by single spaces; when even
   * the last sentence alone does not fit, it returns the empty string.
   */
  lemma OverlapIsFittingTail(count: Counter, overlapSize: int, chunkText: string)
    requires chunkText != []
    ensures var ss := SentencesOf(chunkText);
      OverlapText(count, overlapSize, chunkText) == JoinSpace(ss[|ss| - FitCount(count, overlapSize, ss, 0)..])
    ensures var ss := SentencesOf(chunkText);
      ss != [] && count(ss[|ss| - 1] + " ") > overlapSize ==> OverlapText(count, overlapSize, chunkText) == ""
  {
    SentencesAreSentences(chunkText);
    OverlapOfSentences(count, overlapSize, SentencesOf(chunkText));
  }

  lemma SentencesAreSentences(text: string)
    ensures AllSentences(SentencesOf(text))
  {
    SentencesShape(text);
  }

  /** The walk over sentences as the splitter makes them, stripped: the trailing run that fits, joined by spaces. */
  lemma OverlapOfSentences(count: Counter, overlapSize: int, ss: seq<string>)
    requires AllSentences(ss)
    ensures Strip(Grow(count, overlapSize, ss, "")) == JoinSpace(ss[|ss| - FitCount(count, overlapSize, ss, 0)..])
    ensures ss != [] && count(ss[|ss| - 1] + " ") > overlapSize ==> Strip(Grow(count, overlapSize, ss, "")) == ""
  {
    var k := FitCount(count, overlapSize, ss, 0);
    OverlapGrowTail(count, overlapSize, ss);
    StripTail(ss, k);
    if ss != [] && count(ss[|ss| - 1] + " ") > overlapSize {
      NothingFits(count, overlapSize, ss);
    }
  }

  lemma OverlapGrowTail(count: Counter, overlapSize: int, ss: seq<string>)
    ensures FitCount(count, overlapSize, ss, 0) <= |ss|
    ensures Grow(count, overlapSize, ss, "") == Tail(ss, FitCount(count, overlapSize, ss, 0))
  {
    GrowIsTail(count, overlapSize, ss, 0);
    assert ss[..|ss| - 0] == ss;
  }

  lemma StripTail(ss: seq<string>, k: nat)
    requires k <= |ss| && AllSentences(ss)
    ensures Strip(Tail(ss, k)) == JoinSpace(ss[|ss| - k..])
  {
    var joined := JoinSpace(ss[|ss| - k..]);
    TailIsJoin(ss, k);
    if k > 0 {
      StripPadded("", joined, " ");
      assert "" + joined + " " == Tail(ss, k);
    } else {
      assert ss[|ss| - k..] == [];
    }
  }

  lemma NothingFits(count: Counter, overlapSize: int, ss: seq<string>)
    requires ss != [] && count(ss[|ss| - 1] + " ") > overlapSize
    ensures FitCount(count, overlapSize, ss, 0) == 0
    ensures ss[|ss| - 0..] == []
  {
    var last := ss[|ss| - 1] + " ";
    assert Tail(ss, 1) == last + "";
    assert last + "" == last;
    assert count(Tail(ss, 1)) > overlapSize;
  }

  lemma GrowUnfold(count: Counter, overlapSize: int, sentences: seq<string>, i: nat, acc: string)
    requires 0 < i <= |sentences|
    ensures var test := sentences[i - 1] + " " + acc;
      Grow(count, overlapSize, sentences[..i], acc)
      == if count(test) <= overlapSize then Grow(count, overlapSize, sentences[..i - 1], test) else acc
  {
    assert sentences[..i][..i - 1] == sentences[..i - 1];
  }

  /** _get_overlap_text: the backward walk over the chunk's sentences, with its early break. */
  method GetOverlapText(count: Counter, overlapSize: int, chunkText: string) returns (overlap: string)
    ensures overlap == OverlapText(count, overlapSize, chunkText)
    ensures Trimmed(overlap)
  {
    if chunkText == [] {
      return "";
    }
    var sentences := SplitIntoSentences(chunkText);
    var acc := "";
    var i := |sentences|;
    assert sentences[..i] == sentences;
    while i > 0
      invariant 0 <= i <= |sentences|
      invariant Grow(count, overlapSize, sentences, "") == Grow(count, overlapSize, sentences[..i], acc)
    {
      var test := sentences[i - 1] + " " + acc;
      GrowUnfold(count, overlapSize, sentences, i, acc);
      if count(test) <= overlapSize {
        acc := test;
        i := i - 1;
      } else {
        assert Grow(count, overlapSize, sentences, "") == acc;
        break;
      }
    }
    assert Grow(count, overlapSize, sentences, "") == acc by {
      if i == 0 { assert sentences[..i] == []; }
    }
    overlap := Strip(acc);
  }
}
