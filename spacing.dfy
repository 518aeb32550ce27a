/**
 * input/normalizer.py, _fix_word_spacing: five re.sub passes, each of the form
 * ([class1])([class2]) -> '\1 \2', that put a space between two adjacent
 * characters. A pass scans left to right and, after a match, resumes behind
 * its second character.
 */
module WordSpacing {
  import opened Text

  predicate IsSentencePunct(c: char) { c == '.' || c == '!' || c == '?' || c == ';' || c == ':' }

  /** The five passes, in the order the source applies them. */
  datatype Rule =
    | LowerUpper   // ([a-z])([A-Z])
    | DotUpper     // (\.)([A-Z])
    | DigitLetter  // (\d)([A-Za-z])
    | LetterDigit  // ([A-Za-z])(\d)
    | PunctLetter  // ([.!?;:])([A-Za-z])

  /** The class of the first group. */
  predicate Left(rule: Rule, c: char)
  {
    match rule
    case LowerUpper => IsLower(c)
    case DotUpper => c == '.'
    case DigitLetter => IsDigit(c)
    case LetterDigit => IsLetter(c)
    case PunctLetter => IsSentencePunct(c)
  }

  /** The class of the second group. */
  predicate Right(rule: Rule, c: char)
  {
    match rule
    case LowerUpper => IsUpper(c)
    case DotUpper => IsUpper(c)
    case DigitLetter => IsLetter(c)
    case LetterDigit => IsDigit(c)
    case PunctLetter => IsLetter(c)
  }

  /** One pass: a space between every matched pair, scanning left to right without overlap. */
  function InsertSpaces(s: string, rule: Rule): string
    decreases |s|
  {
    if |s| < 2 then s
    else if Left(rule, s[0]) && Right(rule, s[1]) then [s[0], ' ', s[1]] + InsertSpaces(s[2..], rule)
    else [s[0]] + InsertSpaces(s[1..], rule)
  }

  /** _fix_word_spacing: the five passes in order. */
  function FixWordSpacing(s: string): string
  {
    InsertSpaces(InsertSpaces(InsertSpaces(InsertSpaces(InsertSpaces(s,
      LowerUpper), DotUpper), DigitLetter), LetterDigit), PunctLetter)
  }

  /** No two adjacent characters that the rule would separate. */
  predicate NoPair(s: string, rule: Rule)
  {
    forall i :: 0 <= i < |s| - 1 ==> !(Left(rule, s[i]) && Right(rule, s[i + 1]))
  }

  /** None of the five rules finds a pair. */
  predicate WellSpaced(s: string)
  {
    NoPair(s, LowerUpper) && NoPair(s, DotUpper) && NoPair(s, DigitLetter)
      && NoPair(s, LetterDigit) && NoPair(s, PunctLetter)
  }

  /** r is s with spaces inserted (anywhere, any number): every character of s kept, in order, and only spaces added. */
  predicate Inserted(s: string, r: string)
    decreases |r|
  {
    if r == [] then s == []
    else (s != [] && r[0] == s[0] && Inserted(s[1..], r[1..])) || (r[0] == ' ' && Inserted(s, r[1..]))
  }

  lemma {:induction false} InsertedRefl(s: string)
    ensures Inserted(s, s)
    decreases |s|
  {
    if s != [] {
      InsertedRefl(s[1..]);
    }
  }

  lemma {:induction false} InsertedTrans(a: string, b: string, c: string)
    requires Inserted(a, b) && Inserted(b, c)
    ensures Inserted(a, c)
    decreases |c|
  {
    if c != [] {
      if b != [] && c[0] == b[0] && Inserted(b[1..], c[1..]) {
        if a != [] && b[0] == a[0] && Inserted(a[1..], b[1..]) {
          InsertedTrans(a[1..], b[1..], c[1..]);
        } else {
          InsertedTrans(a, b[1..], c[1..]);
        }
      } else {
        InsertedTrans(a, b, c[1..]);
      }
    }
  }

  /** A space is in neither class of any rule, and the classes of one rule are disjoint. */
  lemma ClassesApart(rule: Rule, c: char)
    ensures !Left(rule, ' ') && !Right(rule, ' ')
    ensures Right(rule, c) ==> !Left(rule, c)
  {
  }

  lemma InsertSpacesFirst(s: string, rule: Rule)
    requires s != []
    ensures InsertSpaces(s, rule) != [] && InsertSpaces(s, rule)[0] == s[0]
  {
  }

  /** A pass only inserts spaces. */
  lemma {:induction false} InsertSpacesInserted(s: string, rule: Rule)
    ensures Inserted(s, InsertSpaces(s, rule))
    decreases |s|
  {
    if |s| < 2 {
      InsertedRefl(s);
    } else if Left(rule, s[0]) && Right(rule, s[1]) {
      InsertSpacesInserted(s[2..], rule);
      var t := InsertSpaces(s[2..], rule);
      var r := [s[0], ' ', s[1]] + t;
      assert r[1..][1..][1..] == t && s[1..][1..] == s[2..];
      assert Inserted(s[1..], r[1..][1..]);
      assert Inserted(s[1..], r[1..]);
    } else {
      InsertSpacesInserted(s[1..], rule);
      assert ([s[0]] + InsertSpaces(s[1..], rule))[1..] == InsertSpaces(s[1..], rule);
    }
  }

  /** After a pass, its rule finds no pair. */
  lemma {:induction false} InsertSpacesNoPair(s: string, rule: Rule)
    ensures NoPair(InsertSpaces(s, rule), rule)
    decreases |s|
  {
    if |s| >= 2 {
      var matched := Left(rule, s[0]) && Right(rule, s[1]);
      var k := if matched then 2 else 1;
      var p: string := if matched then [s[0], ' ', s[1]] else [s[0]];
      InsertSpacesNoPair(s[k..], rule);
      var t := InsertSpaces(s[k..], rule);
      assert InsertSpaces(s, rule) == p + t;
      ClassesApart(rule, s[1]);
      if s[k..] != [] {
        InsertSpacesFirst(s[k..], rule);
      }
      forall i | 0 <= i < |p + t| - 1
        ensures !(Left(rule, (p + t)[i]) && Right(rule, (p + t)[i + 1]))
      {
        if i >= |p| {
          assert (p + t)[i] == t[i - |p|] && (p + t)[i + 1] == t[i - |p| + 1];
        } else if i + 1 == |p| {
          assert (p + t)[i] == s[k - 1] && (p + t)[i + 1] == t[0];
        }
      }
    }
  }

  /** A pass does not create a pair for any rule: it only puts spaces between characters. */
  lemma {:induction false} InsertSpacesKeepsNoPair(s: string, rule: Rule, other: Rule)
    requires NoPair(s, other)
    ensures NoPair(InsertSpaces(s, rule), other)
    decreases |s|
  {
    if |s| >= 2 {
      var matched := Left(rule, s[0]) && Right(rule, s[1]);
      var k := if matched then 2 else 1;
      var p: string := if matched then [s[0], ' ', s[1]] else [s[0]];
      assert NoPair(s[k..], other) by {
        forall i | 0 <= i < |s[k..]| - 1
          ensures !(Left(other, s[k..][i]) && Right(other, s[k..][i + 1]))
        {
          assert s[k..][i] == s[k + i] && s[k..][i + 1] == s[k + i + 1];
        }
      }
      InsertSpacesKeepsNoPair(s[k..], rule, other);
      var t := InsertSpaces(s[k..], rule);
      assert InsertSpaces(s, rule) == p + t;
      ClassesApart(other, s[1]);
      if s[k..] != [] {
        InsertSpacesFirst(s[k..], rule);
      }
      forall i | 0 <= i < |p + t| - 1
        ensures !(Left(other, (p + t)[i]) && Right(other, (p + t)[i + 1]))
      {
        if i >= |p| {
          assert (p + t)[i] == t[i - |p|] && (p + t)[i + 1] == t[i - |p| + 1];
        } else if i + 1 == |p| {
          assert (p + t)[i] == s[k - 1] && (p + t)[i + 1] == t[0] == s[k];
        }
      }
    }
  }

  /** A text in which the rule finds no pair passes through unchanged. */
  lemma {:induction false} InsertSpacesFixed(s: string, rule: Rule)
    requires NoPair(s, rule)
    ensures InsertSpaces(s, rule) == s
    decreases |s|
  {
    if |s| >= 2 {
      assert !(Left(rule, s[0]) && Right(rule, s[1]));
      assert NoPair(s[1..], rule) by {
        forall i | 0 <= i < |s| - 2
          ensures !(Left(rule, s[1..][i]) && Right(rule, s[1..][i + 1]))
        {
          assert s[1..][i] == s[i + 1] && s[1..][i + 1] == s[i + 2];
        }
      }
      InsertSpacesFixed(s[1..], rule);
      assert [s[0]] + s[1..] == s;
    }
  }

  /** One pass on top of earlier ones: it only inserts spaces, adds its own rule to those satisfied, and keeps the rest. */
  lemma PassStep(s: string, rule: Rule)
    ensures Inserted(s, InsertSpaces(s, rule))
    ensures NoPair(InsertSpaces(s, rule), rule)
    ensures forall other :: NoPair(s, other) ==> NoPair(InsertSpaces(s, rule), other)
  {
    InsertSpacesInserted(s, rule);
    InsertSpacesNoPair(s, rule);
    forall other | NoPair(s, other)
      ensures NoPair(InsertSpaces(s, rule), other)
    {
      InsertSpacesKeepsNoPair(s, rule, other);
    }
  }

  /**
   * _fix_word_spacing only inserts spaces ("preserving all characters"), and
   * afterwards none of its five rules finds a pair: in particular no ASCII
   * lowercase letter is directly followed by an ASCII uppercase one.
   */
  lemma FixWordSpacingSpec(s: string)
    ensures Inserted(s, FixWordSpacing(s))
    ensures WellSpaced(FixWordSpacing(s))
  {
    var a := InsertSpaces(s, LowerUpper);
    var b := InsertSpaces(a, DotUpper);
    var c := InsertSpaces(b, DigitLetter);
    var d := InsertSpaces(c, LetterDigit);
    PassStep(s, LowerUpper);
    PassStep(a, DotUpper);
    PassStep(b, DigitLetter);
    PassStep(c, LetterDigit);
    PassStep(d, PunctLetter);
    InsertedTrans(s, a, b);
    InsertedTrans(s, b, c);
    InsertedTrans(s, c, d);
    InsertedTrans(s, d, FixWordSpacing(s));
  }

  /** A well-spaced text is left alone, so the pass is idempotent. */
  lemma FixWordSpacingFixed(s: string)
    requires WellSpaced(s)
    ensures FixWordSpacing(s) == s
  {
    InsertSpacesFixed(s, LowerUpper);
    InsertSpacesFixed(s, DotUpper);
    InsertSpacesFixed(s, DigitLetter);
    InsertSpacesFixed(s, LetterDigit);
    InsertSpacesFixed(s, PunctLetter);
  }

  lemma FixWordSpacingIdempotent(s: string)
    ensures FixWordSpacing(FixWordSpacing(s)) == FixWordSpacing(s)
  {
    FixWordSpacingSpec(s);
    FixWordSpacingFixed(FixWordSpacing(s));
  }
}
