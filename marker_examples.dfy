/**
 * Worked examples of the marker patterns on concrete list texts: markers stack,
 * and the standard and enhanced cleaners disagree on an upper-case roman marker closed by `)`.
 */
module MarkerExamples {
  import opened Wrappers
  import opened OrgStrings
  import opened Lists

  /**
   * Markers stack: from `1. a. x` the digit pattern removes `1. `, and the letter pattern,
   * which comes later, then removes `a. ` from what is left.
   */
  lemma StackedMarkersRemoved(s: string)
    requires s == "1. a. x"
    ensures SubAll(NumberCleanPatterns, s) == "x"
  {
    var ps := NumberCleanPatterns;
    var mids := ["1. a. x", "a. x", "a. x", "x", "x", "x", "x"];
    forall k | 0 <= k < |ps|
      ensures Sub(ps[k], mids[k]) == mids[k + 1]
    {
      if k == 0 {
        MarkerAt(ps[0], "1. a. x", 1);
        assert "1. a. x"[3..] == "a. x";
      } else if k == 1 {
        NoMatchFirst(ps[1], "a. x");
      } else if k == 2 {
        MarkerAt(ps[2], "a. x", 1);
        assert "a. x"[3..] == "x";
      } else {
        NoMatchShort(ps[k], "x");
      }
    }
    SubAllChain(ps, s, mids);
  }

  /** `IV) ` opens an upper-case roman marker closed by `)`, and no marker closed by `.`. */
  lemma RomanParenMatches(s: string)
    requires s == "IV) x"
    ensures MatchLen(Pattern(UpperRomanClass, true, Some(')')), s) == Some(4)
      && MatchLen(Pattern(RomanClass, true, Some('.')), s).None?
      && MatchLen(Pattern(UpperRomanClass, true, Some('.')), s).None?
      && MatchLen(Pattern(LetterClass, false, Some('.')), s).None?
      && MatchLen(Pattern(LetterClass, false, Some(')')), s).None?
      && MatchLen(Pattern(DigitClass, true, Some('.')), s).None?
      && MatchLen(Pattern(DigitClass, true, Some(')')), s).None?
  {
    MarkerAt(Pattern(UpperRomanClass, true, Some(')')), s, 2);
    ClassSpanExactly(RomanClass, s, 2);
    TermMismatch(Pattern(RomanClass, true, Some('.')), s, 2);
    ClassSpanExactly(UpperRomanClass, s, 2);
    TermMismatch(Pattern(UpperRomanClass, true, Some('.')), s, 2);
    TermMismatch(Pattern(LetterClass, false, Some('.')), s, 1);
    TermMismatch(Pattern(LetterClass, false, Some(')')), s, 1);
    NoMatchFirst(Pattern(DigitClass, true, Some('.')), s);
    NoMatchFirst(Pattern(DigitClass, true, Some(')')), s);
  }

  /** The standard patterns remove an upper-case roman marker closed by `)`. */
  lemma RomanParenRemoved(s: string)
    requires s == "IV) x"
    ensures SubAll(NumberCleanPatterns, s) == "x"
  {
    var ps := NumberCleanPatterns;
    var mids := ["IV) x", "IV) x", "IV) x", "IV) x", "IV) x", "IV) x", "x"];
    RomanParenMatches(s);
    assert s[4..] == "x";
    SubAllChain(ps, s, mids);
  }

  /** The enhanced patterns leave `IV) x` as it is: their last roman pattern expects `.`. */
  lemma RomanParenKept(s: string)
    requires s == "IV) x"
    ensures SubAll(EnhancedNumberCleanPatterns, s) == s
  {
    RomanParenNoEnhancedMatch(s);
    SubAllNoMatch(EnhancedNumberCleanPatterns, s);
  }

  lemma RomanParenNoEnhancedMatch(s: string)
    requires s == "IV) x"
    ensures forall k :: 0 <= k < |EnhancedNumberCleanPatterns| ==> MatchLen(EnhancedNumberCleanPatterns[k], s).None?
  {
    var ps := EnhancedNumberCleanPatterns;
    RomanParenMatches(s);
    forall k | 0 <= k < |ps|
      ensures MatchLen(ps[k], s).None?
    {
      if k < 3 {
        NoMatchFirst(ps[k], s);
      } else if k == 3 {
        assert ps[k] == Pattern(LetterClass, false, Some('.'));
      } else if k == 4 {
        assert ps[k] == Pattern(LetterClass, false, Some(')'));
      } else if k == 5 {
        assert ps[k] == Pattern(RomanClass, true, Some('.'));
      } else {
        assert ps[k] == Pattern(UpperRomanClass, true, Some('.'));
      }
    }
  }

  /** `IV) x` is detected as an ordered item. */
  lemma RomanParenDetected(s: string)
    requires s == "IV) x"
    ensures DetectFromText(s) == Some((Ordered, 0))
  {
    StripLiteral(s);
    var bs := BulletDetectPatterns;
    NoMatchFirst(bs[0], s);
    NoMatchFirst(bs[1], s);
    NoMatchFirst(bs[2], s);
    assert !AnyMatch(bs, s);
    RomanParenMatches(s);
    assert MatchLen(NumberDetectPatterns[5], s).Some?;
  }
}
