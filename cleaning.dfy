/**
 * input/normalizer.py, the two character-level passes: _basic_cleaning (control
 * characters, line endings, runs of blank lines) and _final_cleanup (whitespace
 * runs, the ends, the closing punctuation). Each re.sub is a left-to-right,
 * non-overlapping rewrite written out as a recursive function.
 */
module Cleaning {
  import opened Text

  // ---------------------------------------------------------------------------
  // _basic_cleaning

  /** The class [\x00-\x08\x0b\x0c\x0e-\x1f\x7f-\x9f] that _basic_cleaning deletes. */
  predicate IsRemovedControl(c: char)
  {
    || c <= '\U{08}'
    || c == '\U{0B}' || c == '\U{0C}'
    || '\U{0E}' <= c <= '\U{1F}'
    || '\U{7F}' <= c <= '\U{9F}'
  }

  predicate IsCarriageReturn(c: char)
  {
    c == '\r'
  }

  /** No character of s is in the class `bad`. */
  predicate Avoids(s: string, bad: char -> bool)
  {
    forall i :: 0 <= i < |s| ==> !bad(s[i])
  }

  /** No three newlines in a row. */
  predicate NoTripleNewline(s: string)
  {
    forall i :: 0 <= i < |s| - 2 ==> !(s[i] == '\n' && s[i + 1] == '\n' && s[i + 2] == '\n')
  }

  lemma AvoidsConcat(a: string, b: string, bad: char -> bool)
    ensures Avoids(a + b, bad) <==> Avoids(a, bad) && Avoids(b, bad)
  {
    if Avoids(a, bad) && Avoids(b, bad) {
      forall i | 0 <= i < |a + b|
        ensures !bad((a + b)[i])
      {
        if i >= |a| { assert (a + b)[i] == b[i - |a|]; }
      }
    }
    if Avoids(a + b, bad) {
      forall i | 0 <= i < |b|
        ensures !bad(b[i])
      {
        assert (a + b)[|a| + i] == b[i];
      }
      forall i | 0 <= i < |a|
        ensures !bad(a[i])
      {
        assert (a + b)[i] == a[i];
      }
    }
  }

  lemma AvoidsSuffix(s: string, k: nat, bad: char -> bool)
    requires k <= |s|
    ensures Avoids(s, bad) ==> Avoids(s[k..], bad)
  {
    assert s[..k] + s[k..] == s;
    AvoidsConcat(s[..k], s[k..], bad);
  }

  /** re.sub(r'[\x00-\x08\x0b\x0c\x0e-\x1f\x7f-\x9f]', '', text). */
  function RemoveControls(s: string): string
  {
    if s == [] then []
    else if IsRemovedControl(s[0]) then RemoveControls(s[1..])
    else [s[0]] + RemoveControls(s[1..])
  }

  /** text.replace('\r\n', '\n'). */
  function ReplaceCrLf(s: string): string
  {
    if |s| >= 2 && s[0] == '\r' && s[1] == '\n' then "\n" + ReplaceCrLf(s[2..])
    else if s == [] then []
    else [s[0]] + ReplaceCrLf(s[1..])
  }

  /** text.replace('\r', '\n'). */
  function ReplaceCr(s: string): string
  {
    if s == [] then []
    else [if s[0] == '\r' then '\n' else s[0]] + ReplaceCr(s[1..])
  }

  /** The length of the run of newlines at the front of s. */
  function NewlineRun(s: string): (k: nat)
    ensures k <= |s|
    ensures forall i :: 0 <= i < k ==> s[i] == '\n'
    ensures k < |s| ==> s[k] != '\n'
  {
    if s != [] && s[0] == '\n' then 1 + NewlineRun(s[1..]) else 0
  }

  /** re.sub(r'\n{3,}', '\n\n', text): every run of three or more newlines becomes two. */
  function CapNewlines(s: string): string
    decreases |s|
  {
    if s == [] then []
    else if s[0] != '\n' then [s[0]] + CapNewlines(s[1..])
    else
      var k := NewlineRun(s);
      (if k >= 3 then "\n\n" else s[..k]) + CapNewlines(s[k..])
  }

  /** _basic_cleaning: the three rewrites in the source's order. */
  function BasicCleaning(s: string): string
  {
    CapNewlines(ReplaceCr(ReplaceCrLf(RemoveControls(s))))
  }

  /** What _basic_cleaning promises: no deleted control character, no carriage return, no three newlines in a row. */
  predicate CleanText(s: string)
  {
    Avoids(s, IsRemovedControl) && Avoids(s, IsCarriageReturn) && NoTripleNewline(s)
  }

  /** Deleting the control characters leaves none, keeps every other character, and changes nothing when there are none. */
  lemma {:induction false} RemoveControlsSpec(s: string, bad: char -> bool)
    ensures Avoids(RemoveControls(s), IsRemovedControl)
    ensures Avoids(s, bad) ==> Avoids(RemoveControls(s), bad)
    ensures Avoids(s, IsRemovedControl) ==> RemoveControls(s) == s
  {
    if s != [] {
      RemoveControlsSpec(s[1..], bad);
      AvoidsSuffix(s, 1, bad);
      AvoidsSuffix(s, 1, IsRemovedControl);
      AvoidsConcat([s[0]], RemoveControls(s[1..]), bad);
      AvoidsConcat([s[0]], RemoveControls(s[1..]), IsRemovedControl);
      assert [s[0]] + s[1..] == s;
    }
  }

  /** Replacing \r\n adds only newlines, and changes nothing in a text without \r. */
  lemma {:induction false} ReplaceCrLfSpec(s: string, bad: char -> bool)
    requires !bad('\n')
    ensures Avoids(s, bad) ==> Avoids(ReplaceCrLf(s), bad)
    ensures Avoids(s, IsCarriageReturn) ==> ReplaceCrLf(s) == s
    decreases |s|
  {
    if |s| >= 2 && s[0] == '\r' && s[1] == '\n' {
      ReplaceCrLfSpec(s[2..], bad);
      AvoidsSuffix(s, 2, bad);
      AvoidsConcat("\n", ReplaceCrLf(s[2..]), bad);
    } else if s != [] {
      ReplaceCrLfSpec(s[1..], bad);
      AvoidsSuffix(s, 1, bad);
      AvoidsSuffix(s, 1, IsCarriageReturn);
      AvoidsConcat([s[0]], ReplaceCrLf(s[1..]), bad);
      assert [s[0]] + s[1..] == s;
    }
  }

  /** Replacing \r leaves none, adds only newlines, and changes nothing in a text without \r. */
  lemma {:induction false} ReplaceCrSpec(s: string, bad: char -> bool)
    requires !bad('\n')
    ensures Avoids(ReplaceCr(s), IsCarriageReturn)
    ensures Avoids(s, bad) ==> Avoids(ReplaceCr(s), bad)
    ensures Avoids(s, IsCarriageReturn) ==> ReplaceCr(s) == s
  {
    if s != [] {
      ReplaceCrSpec(s[1..], bad);
      AvoidsSuffix(s, 1, bad);
      AvoidsSuffix(s, 1, IsCarriageReturn);
      var c := if s[0] == '\r' then '\n' else s[0];
      AvoidsConcat([c], ReplaceCr(s[1..]), bad);
      AvoidsConcat([c], ReplaceCr(s[1..]), IsCarriageReturn);
      assert [s[0]] + s[1..] == s;
    }
  }

  /** A string that does not start with a newline keeps its first character. */
  lemma CapNewlinesFirst(s: string)
    requires s != [] && s[0] != '\n'
    ensures CapNewlines(s) != [] && CapNewlines(s)[0] == s[0]
  {
  }

  /** No three newlines in a row after the rewrite. */
  lemma {:induction false} CapNewlinesNoTriple(s: string)
    ensures NoTripleNewline(CapNewlines(s))
    decreases |s|
  {
    if s != [] {
      var k := if s[0] != '\n' then 1 else NewlineRun(s);
      var p: string := if s[0] != '\n' then [s[0]] else if k >= 3 then "\n\n" else s[..k];
      CapNewlinesNoTriple(s[k..]);
      var t := CapNewlines(s[k..]);
      assert CapNewlines(s) == p + t;
      if s[0] == '\n' && s[k..] != [] {
        CapNewlinesFirst(s[k..]);
      }
      assert |p| <= 2;
      assert s[0] != '\n' ==> p[0] != '\n';
      assert s[0] == '\n' ==> (t == [] || t[0] != '\n');
      forall i | 0 <= i < |p + t| - 2
        ensures !((p + t)[i] == '\n' && (p + t)[i + 1] == '\n' && (p + t)[i + 2] == '\n')
      {
        NoTripleAt(p, t, i, s[0] != '\n');
      }
    }
  }

  lemma NoTripleAt(p: string, t: string, i: nat, startsOther: bool)
    requires |p| <= 2 && NoTripleNewline(t) && i < |p + t| - 2
    requires startsOther ==> |p| == 1 && p[0] != '\n'
    requires !startsOther ==> t == [] || t[0] != '\n'
    ensures !((p + t)[i] == '\n' && (p + t)[i + 1] == '\n' && (p + t)[i + 2] == '\n')
  {
    if i >= |p| {
      assert (p + t)[i] == t[i - |p|] && (p + t)[i + 1] == t[i - |p| + 1] && (p + t)[i + 2] == t[i - |p| + 2];
    } else if startsOther {
      assert (p + t)[i] == p[0];
    } else if i + 1 == |p| {
      assert (p + t)[i + 1] == t[0];
    } else {
      assert (p + t)[i + 2] == t[0];
    }
  }

  /** The rewrite keeps only characters it was given (and newlines it took from a run). */
  lemma {:induction false} CapNewlinesKeeps(s: string, bad: char -> bool)
    requires Avoids(s, bad)
    ensures Avoids(CapNewlines(s), bad)
    decreases |s|
  {
    if s != [] {
      var k := if s[0] != '\n' then 1 else NewlineRun(s);
      var p: string := if s[0] != '\n' then [s[0]] else if k >= 3 then "\n\n" else s[..k];
      AvoidsSuffix(s, k, bad);
      CapNewlinesKeeps(s[k..], bad);
      assert CapNewlines(s) == p + CapNewlines(s[k..]);
      assert !bad(s[0]);
      assert Avoids(p, bad) by {
        forall i | 0 <= i < |p|
          ensures !bad(p[i])
        {
          assert p[i] == s[i];
        }
      }
      AvoidsConcat(p, CapNewlines(s[k..]), bad);
    }
  }

  /** A text with no three newlines in a row is left alone. */
  lemma {:induction false} CapNewlinesFixed(s: string)
    requires NoTripleNewline(s)
    ensures CapNewlines(s) == s
    decreases |s|
  {
    if s != [] {
      var k := if s[0] != '\n' then 1 else NewlineRun(s);
      assert k < 3 by {
        if s[0] == '\n' && |s| > 2 {
          assert !(s[0] == '\n' && s[1] == '\n' && s[2] == '\n');
        }
      }
      assert NoTripleNewline(s[k..]) by {
        forall i | 0 <= i < |s[k..]| - 2
          ensures !(s[k..][i] == '\n' && s[k..][i + 1] == '\n' && s[k..][i + 2] == '\n')
        {
          assert s[k..][i] == s[k + i] && s[k..][i + 1] == s[k + i + 1] && s[k..][i + 2] == s[k + i + 2];
        }
      }
      CapNewlinesFixed(s[k..]);
      assert s[..k] + s[k..] == s;
    }
  }

  /** _basic_cleaning's output is clean, and clean text passes through unchanged. */
  lemma BasicCleaningSpec(s: string)
    ensures CleanText(BasicCleaning(s))
    ensures CleanText(s) ==> BasicCleaning(s) == s
  {
    RemoveControlsSpec(s, IsCarriageReturn);
    var a := RemoveControls(s);
    ReplaceCrLfSpec(a, IsRemovedControl);
    var b := ReplaceCrLf(a);
    ReplaceCrSpec(b, IsRemovedControl);
    var c := ReplaceCr(b);
    CapNewlinesNoTriple(c);
    CapNewlinesKeeps(c, IsRemovedControl);
    CapNewlinesKeeps(c, IsCarriageReturn);
    if CleanText(s) {
      CapNewlinesFixed(c);
    }
  }

  /** _basic_cleaning is idempotent. */
  lemma BasicCleaningIdempotent(s: string)
    ensures BasicCleaning(BasicCleaning(s)) == BasicCleaning(s)
  {
    BasicCleaningSpec(s);
    BasicCleaningSpec(BasicCleaning(s));
  }

  // ---------------------------------------------------------------------------
  // Collapsing runs of a character class into one space: re.sub(r'[...]+', ' ', text).
  // _final_cleanup does it for \s, _normalize_whitespace for [ \t].

  /** The length of the run of class characters at the front of s. */
  function ClassRun(s: string, cls: char -> bool): (k: nat)
    ensures k <= |s|
    ensures forall i :: 0 <= i < k ==> cls(s[i])
    ensures k < |s| ==> !cls(s[k])
  {
    if s != [] && cls(s[0]) then 1 + ClassRun(s[1..], cls) else 0
  }

  /** Every maximal run of class characters becomes one space. */
  function CollapseRuns(s: string, cls: char -> bool): string
    decreases |s|
  {
    if s == [] then []
    else if !cls(s[0]) then [s[0]] + CollapseRuns(s[1..], cls)
    else
      var k := ClassRun(s, cls);
      " " + CollapseRuns(s[k..], cls)
  }

  /** Every class character is a plain space. */
  predicate OnlySpaces(s: string, cls: char -> bool)
  {
    forall i :: 0 <= i < |s| ==> cls(s[i]) ==> s[i] == ' '
  }

  /** No two class characters in a row. */
  predicate NoDoubleSpace(s: string, cls: char -> bool)
  {
    forall i :: 0 <= i < |s| - 1 ==> !(cls(s[i]) && cls(s[i + 1]))
  }

  /** Class characters occur only as single spaces. */
  predicate SingleSpaced(s: string, cls: char -> bool)
  {
    OnlySpaces(s, cls) && NoDoubleSpace(s, cls)
  }

  /** The front of the collapsed text: a space for a run, or the first character. */
  function CollapseHead(s: string, cls: char -> bool): (p: string)
    requires s != []
    ensures |p| == 1
  {
    if cls(s[0]) then " " else [s[0]]
  }

  /** How much of s the front of the collapsed text stands for. */
  function CollapseTake(s: string, cls: char -> bool): (k: nat)
    requires s != []
    ensures 0 < k <= |s|
  {
    if cls(s[0]) then ClassRun(s, cls) else 1
  }

  lemma CollapseUnfold(s: string, cls: char -> bool)
    requires s != []
    ensures CollapseRuns(s, cls) == CollapseHead(s, cls) + CollapseRuns(s[CollapseTake(s, cls)..], cls)
    ensures cls(s[0]) && CollapseTake(s, cls) < |s| ==> !cls(s[CollapseTake(s, cls)])
  {
  }

  lemma CollapseFirst(s: string, cls: char -> bool)
    requires s != [] && !cls(s[0])
    ensures CollapseRuns(s, cls) != [] && CollapseRuns(s, cls)[0] == s[0]
  {
  }

  lemma {:induction false} CollapseOnlySpaces(s: string, cls: char -> bool)
    ensures OnlySpaces(CollapseRuns(s, cls), cls)
    decreases |s|
  {
    if s != [] {
      CollapseUnfold(s, cls);
      var k := CollapseTake(s, cls);
      CollapseOnlySpaces(s[k..], cls);
      var p := CollapseHead(s, cls);
      var t := CollapseRuns(s[k..], cls);
      forall i | 0 <= i < |p + t|
        ensures cls((p + t)[i]) ==> (p + t)[i] == ' '
      {
        if i > 0 {
          assert (p + t)[i] == t[i - 1];
        }
      }
    }
  }

  lemma {:induction false} CollapseNoDoubleSpace(s: string, cls: char -> bool)
    ensures NoDoubleSpace(CollapseRuns(s, cls), cls)
    decreases |s|
  {
    if s != [] {
      CollapseUnfold(s, cls);
      var k := CollapseTake(s, cls);
      CollapseNoDoubleSpace(s[k..], cls);
      var p := CollapseHead(s, cls);
      var t := CollapseRuns(s[k..], cls);
      if cls(s[0]) && s[k..] != [] {
        CollapseFirst(s[k..], cls);
      }
      forall i | 0 <= i < |p + t| - 1
        ensures !(cls((p + t)[i]) && cls((p + t)[i + 1]))
      {
        if i > 0 {
          assert (p + t)[i] == t[i - 1] && (p + t)[i + 1] == t[i];
        } else {
          assert (p + t)[1] == t[0];
        }
      }
    }
  }

  /** A single-spaced text is left alone by the collapse. */
  lemma {:induction false} CollapseFixed(s: string, cls: char -> bool)
    requires SingleSpaced(s, cls)
    ensures CollapseRuns(s, cls) == s
    decreases |s|
  {
    if s != [] {
      CollapseUnfold(s, cls);
      assert CollapseTake(s, cls) == 1 by {
        if |s| > 1 {
          assert !(cls(s[0]) && cls(s[1]));
        }
      }
      SingleSpacedSlice(s, 1, |s|, cls);
      CollapseFixed(s[1..], cls);
      assert [s[0]] + s[1..] == s;
    }
  }

  /** A slice of a single-spaced string is single-spaced. */
  lemma SingleSpacedSlice(s: string, a: nat, b: nat, cls: char -> bool)
    requires a <= b <= |s| && SingleSpaced(s, cls)
    ensures SingleSpaced(s[a..b], cls)
  {
    forall i | 0 <= i < b - a
      ensures cls(s[a..b][i]) ==> s[a..b][i] == ' '
    {
      assert s[a..b][i] == s[a + i];
    }
    forall i | 0 <= i < b - a - 1
      ensures !(cls(s[a..b][i]) && cls(s[a..b][i + 1]))
    {
      assert s[a..b][i] == s[a + i] && s[a..b][i + 1] == s[a + i + 1];
    }
  }

  // ---------------------------------------------------------------------------
  // _final_cleanup

  /** The characters _final_cleanup accepts as an ending. */
  predicate IsClosing(c: char)
  {
    c == '.' || c == '!' || c == '?' || c == ';' || c == ':'
  }

  lemma AllSpaceConcat(a: string, b: string)
    ensures AllSpace(a + b) <==> AllSpace(a) && AllSpace(b)
  {
    if AllSpace(a) && AllSpace(b) {
      forall i | 0 <= i < |a + b|
        ensures IsSpace((a + b)[i])
      {
        if i >= |a| { assert (a + b)[i] == b[i - |a|]; }
      }
    }
    if AllSpace(a + b) {
      forall i | 0 <= i < |b|
        ensures IsSpace(b[i])
      {
        assert (a + b)[|a| + i] == b[i];
      }
      forall i | 0 <= i < |a|
        ensures IsSpace(a[i])
      {
        assert (a + b)[i] == a[i];
      }
    }
  }

  /** Collapsing whitespace keeps an all-whitespace text all whitespace, and any other text not. */
  lemma {:induction false} AllSpaceCollapse(s: string)
    ensures AllSpace(CollapseRuns(s, IsSpace)) <==> AllSpace(s)
    decreases |s|
  {
    if s != [] {
      CollapseUnfold(s, IsSpace);
      var k := CollapseTake(s, IsSpace);
      AllSpaceCollapse(s[k..]);
      AllSpaceConcat(CollapseHead(s, IsSpace), CollapseRuns(s[k..], IsSpace));
      assert AllSpace(CollapseHead(s, IsSpace)) <==> IsSpace(s[0]) by {
        assert CollapseHead(s, IsSpace)[0] == if IsSpace(s[0]) then ' ' else s[0];
      }
      assert s[..k] + s[k..] == s;
      AllSpaceConcat(s[..k], s[k..]);
      assert AllSpace(s[..k]) <==> IsSpace(s[0]) by {
        assert s[..k][0] == s[0];
        forall i | 0 <= i < k
          ensures IsSpace(s[0]) ==> IsSpace(s[..k][i])
        {
          assert s[..k][i] == s[i];
        }
      }
    }
  }

  /** A full stop after a single-spaced text that does not end in whitespace keeps it single-spaced. */
  lemma SingleSpacedDot(t: string)
    requires SingleSpaced(t, IsSpace) && Trimmed(t)
    ensures SingleSpaced(t + ".", IsSpace) && Trimmed(t + ".")
  {
    var r := t + ".";
    forall i | 0 <= i < |r|
      ensures IsSpace(r[i]) ==> r[i] == ' '
    {
      if i < |t| { assert r[i] == t[i]; }
    }
    forall i | 0 <= i < |r| - 1
      ensures !(IsSpace(r[i]) && IsSpace(r[i + 1]))
    {
      assert r[i] == t[i];
      if i + 1 < |t| { assert r[i + 1] == t[i + 1]; }
    }
    if t != [] { assert r[0] == t[0]; }
  }

  /** _final_cleanup: collapse whitespace runs, strip, and append "." unless the text already ends in one of .!?;: */
  function FinalCleanup(s: string): string
  {
    var t := Strip(CollapseRuns(s, IsSpace));
    if t != [] && !IsClosing(t[|t| - 1]) then t + "." else t
  }

  /** The collapsed and stripped text: single-spaced, trimmed, empty exactly for an all-whitespace input. */
  lemma CollapsedStripped(s: string)
    ensures var t := Strip(CollapseRuns(s, IsSpace));
      SingleSpaced(t, IsSpace) && Trimmed(t) && (t == [] <==> AllSpace(s))
  {
    var c := CollapseRuns(s, IsSpace);
    CollapseOnlySpaces(s, IsSpace);
    CollapseNoDoubleSpace(s, IsSpace);
    StripSpec(c);
    SingleSpacedSlice(c, StripStart(c), StripStart(c) + |Strip(c)|, IsSpace);
    AllSpaceCollapse(s);
  }

  /**
   * _final_cleanup's output: trimmed, whitespace only as single spaces, empty
   * exactly when the input is all whitespace, otherwise closed by one of .!?;:
   * with the "." appended only when the stripped text lacked such an ending.
   */
  lemma FinalCleanupSpec(s: string)
    ensures Trimmed(FinalCleanup(s)) && SingleSpaced(FinalCleanup(s), IsSpace)
    ensures FinalCleanup(s) == [] <==> AllSpace(s)
    ensures FinalCleanup(s) != [] ==> IsClosing(FinalCleanup(s)[|FinalCleanup(s)| - 1])
    ensures var t := Strip(CollapseRuns(s, IsSpace));
      && (FinalCleanup(s) == t <==> t == [] || IsClosing(t[|t| - 1]))
      && (FinalCleanup(s) != t ==> FinalCleanup(s) == t + ".")
  {
    CollapsedStripped(s);
    var t := Strip(CollapseRuns(s, IsSpace));
    if t != [] && !IsClosing(t[|t| - 1]) {
      SingleSpacedDot(t);
    }
  }

  /** Cleaning the output of _final_cleanup again changes nothing. */
  lemma FinalCleanupIdempotent(s: string)
    ensures FinalCleanup(FinalCleanup(s)) == FinalCleanup(s)
  {
    var r := FinalCleanup(s);
    FinalCleanupSpec(s);
    CollapseFixed(r, IsSpace);
  }
}
