/**
 * List handling of the converters: the anchored marker patterns (`^[..]\s+` and friends),
 * `clean_list_text`, the detection cascade of `detect_list_type_and_level`,
 * `get_org_list_prefix`, and the step of the list-depth / item-counter stacks.
 */
module Lists {
  import opened Wrappers
  import opened OrgStrings
  import opened Docx

  /** The character classes that open a list marker. */
  datatype CharClass =
    | DigitClass        // \d
    | LetterClass       // [a-zA-Z]
    | RomanClass        // [ivxlIVXL]
    | UpperRomanClass   // [IVXL]
    | BulletsA          // [•·▪▫‣⁃]
    | BulletsB          // [o*+−-]
    | BulletsC          // [◦◉○●]
    | BulletDot         // [•]

  predicate InClass(c: char, k: CharClass) {
    match k
    case DigitClass => IsDigit(c)
    case LetterClass => 'a' <= c <= 'z' || 'A' <= c <= 'Z'
    case RomanClass => c in "ivxlIVXL"
    case UpperRomanClass => c in "IVXL"
    case BulletsA => c in "•·▪▫‣⁃"
    case BulletsB => c in "o*+−-"
    case BulletsC => c in "◦◉○●"
    case BulletDot => c == '•'
  }

  /**
   * An anchored marker pattern `^C\s+`, `^C+\s+`, `^Ct\s+` or `^C+t\s+`: a class `C`
   * taken once or repeated, an optional literal terminator `t`, then whitespace.
   */
  datatype Pattern = Pattern(cls: CharClass, many: bool, term: Option<char>)

  /** No pattern's terminator belongs to its class, and no class holds whitespace. */
  predicate WellFormed(p: Pattern) {
    (p.term.Some? ==> !InClass(p.term.value, p.cls) && !IsSpace(p.term.value))
    && forall c :: InClass(c, p.cls) ==> !IsSpace(c)
  }

  /** The length of the longest prefix of `s` in the class. */
  function ClassSpan(k: CharClass, s: string): (n: nat)
    ensures n <= |s|
  {
    if s != [] && InClass(s[0], k) then 1 + ClassSpan(k, s[1..]) else 0
  }

  /** The class run is in the class, and what follows it is not. */
  lemma {:induction false} ClassSpanShape(k: CharClass, s: string)
    ensures forall j :: 0 <= j < ClassSpan(k, s) ==> InClass(s[j], k)
    ensures ClassSpan(k, s) == |s| || !InClass(s[ClassSpan(k, s)], k)
  {
    if s != [] && InClass(s[0], k) {
      ClassSpanShape(k, s[1..]);
      forall j | 1 <= j < ClassSpan(k, s)
        ensures InClass(s[j], k)
      {
        assert s[j] == s[1..][j - 1];
      }
    }
  }

  /** The length of the longest prefix of `s` that is whitespace. */
  function SpaceSpan(s: string): (n: nat)
    ensures n <= |s|
  {
    if s != [] && IsSpace(s[0]) then 1 + SpaceSpan(s[1..]) else 0
  }

  /** The whitespace run is whitespace, and what follows it is not. */
  lemma {:induction false} SpaceSpanShape(s: string)
    ensures forall j :: 0 <= j < SpaceSpan(s) ==> IsSpace(s[j])
    ensures SpaceSpan(s) == |s| || !IsSpace(s[SpaceSpan(s)])
  {
    if s != [] && IsSpace(s[0]) {
      SpaceSpanShape(s[1..]);
      forall j | 1 <= j < SpaceSpan(s)
        ensures IsSpace(s[j])
      {
        assert s[j] == s[1..][j - 1];
      }
    }
  }

  /** The class part of a match: the whole class run when repeated, else one character. */
  function ClassPart(p: Pattern, s: string): nat {
    if p.many then ClassSpan(p.cls, s) else if s != [] && InClass(s[0], p.cls) then 1 else 0
  }

  /**
   * `re.match(p, s)`: the length of the match at the start of `s`, or `None`. The class
   * part and the whitespace part are taken as long as they go, as the greedy `+` does.
   */
  function MatchLen(p: Pattern, s: string): (r: Option<nat>)
    ensures r.Some? ==> r.value <= |s|
  {
    var i := ClassPart(p, s);
    if i == 0 then None
    else if p.term.Some? && !(i < |s| && s[i] == p.term.value) then None
    else
      var j := if p.term.Some? then i + 1 else i;
      var w := SpaceSpan(s[j..]);
      if w == 0 then None else Some(j + w)
  }

  /**
   * `w` as a whole is a word of the pattern's language, cut after `i` class characters:
   * `w[..i]` in the class (one character unless repeated), the terminator, then a
   * non-empty stretch of whitespace to the end.
   */
  predicate Shaped(p: Pattern, w: string, i: nat) {
    var j := if p.term.Some? then i + 1 else i;
    1 <= i && j < |w| && (!p.many ==> i == 1)
    && (forall k :: 0 <= k < i ==> InClass(w[k], p.cls))
    && (p.term.Some? ==> w[i] == p.term.value)
    && (forall k :: j <= k < |w| ==> IsSpace(w[k]))
  }

  /** What `MatchLen` finds is a word of the pattern. */
  lemma MatchLenSound(p: Pattern, s: string)
    requires MatchLen(p, s).Some?
    ensures exists i :: Shaped(p, s[..MatchLen(p, s).value], i)
  {
    var n := MatchLen(p, s).value;
    var i := ClassPart(p, s);
    var j := if p.term.Some? then i + 1 else i;
    ClassSpanShape(p.cls, s);
    SpaceSpanShape(s[j..]);
    assert forall k :: j <= k < n ==> s[k] == s[j..][k - j];
    assert Shaped(p, s[..n], i);
  }

  /** Every prefix of `s` that is a word of a well-formed pattern is found, and none is longer than the match. */
  lemma MatchLenComplete(p: Pattern, s: string, m: nat, i: nat)
    requires WellFormed(p)
    requires m <= |s| && Shaped(p, s[..m], i)
    ensures MatchLen(p, s).Some? && m <= MatchLen(p, s).value
  {
    ClassPartOfShaped(p, s, m, i);
    var j := if p.term.Some? then i + 1 else i;
    assert forall k :: 0 <= k < m - j ==> IsSpace(s[j..][k]) by {
      forall k | 0 <= k < m - j
        ensures IsSpace(s[j..][k])
      {
        assert s[j..][k] == s[..m][j + k];
      }
    }
    SpaceSpanAtLeast(s[j..], m - j);
  }

  /** In a word of a well-formed pattern the class part ends where `ClassPart` says. */
  lemma ClassPartOfShaped(p: Pattern, s: string, m: nat, i: nat)
    requires WellFormed(p)
    requires m <= |s| && Shaped(p, s[..m], i)
    ensures ClassPart(p, s) == i
  {
    var w := s[..m];
    assert w[i] == s[i];
    assert !InClass(s[i], p.cls) by {
      if p.term.None? {
        assert IsSpace(w[i]);
      }
    }
    if p.many {
      assert forall k :: 0 <= k < i ==> InClass(s[k], p.cls) by {
        forall k | 0 <= k < i
          ensures InClass(s[k], p.cls)
        {
          assert w[k] == s[k];
        }
      }
      ClassSpanAtLeast(p.cls, s, i);
      ClassSpanShape(p.cls, s);
    } else {
      assert w[0] == s[0];
    }
  }

  lemma {:induction false} ClassSpanAtLeast(c: CharClass, s: string, n: nat)
    requires n <= |s| && forall k :: 0 <= k < n ==> InClass(s[k], c)
    ensures ClassSpan(c, s) >= n
  {
    if n > 0 {
      ClassSpanAtLeast(c, s[1..], n - 1);
    }
  }

  lemma {:induction false} SpaceSpanAtLeast(s: string, n: nat)
    requires n <= |s| && forall k :: 0 <= k < n ==> IsSpace(s[k])
    ensures SpaceSpan(s) >= n
  {
    if n > 0 {
      SpaceSpanAtLeast(s[1..], n - 1);
    }
  }

  /** `re.sub(p, '', s)` for an anchored pattern: the match at the start, if any, removed. */
  function Sub(p: Pattern, s: string): string {
    match MatchLen(p, s)
    case Some(n) => s[n..]
    case None => s
  }

  /** The patterns applied one after the other, each to the previous one's result. */
  function SubAll(ps: seq<Pattern>, s: string): string {
    if ps == [] then s else Sub(ps[|ps| - 1], SubAll(ps[..|ps| - 1], s))
  }

  /** Removing markers only ever cuts a prefix off: what is left is a suffix of the text. */
  lemma {:induction false} SubAllSuffix(ps: seq<Pattern>, s: string)
    ensures var r := SubAll(ps, s); |r| <= |s| && r == s[|s| - |r|..]
  {
    if ps != [] {
      SubAllSuffix(ps[..|ps| - 1], s);
      var t := SubAll(ps[..|ps| - 1], s);
      var r := SubAll(ps, s);
      assert s[|s| - |t|..][|t| - |r|..] == s[|s| - |r|..];
    }
  }

  const BulletDetectPatterns: seq<Pattern> := [
    Pattern(BulletsA, false, None), Pattern(BulletsB, false, None), Pattern(BulletsC, false, None)]

  const NumberDetectPatterns: seq<Pattern> := [
    Pattern(DigitClass, true, Some('.')), Pattern(DigitClass, true, Some(')')),
    Pattern(LetterClass, false, Some('.')), Pattern(LetterClass, false, Some(')')),
    Pattern(RomanClass, true, Some('.')), Pattern(UpperRomanClass, true, Some(')'))]

  /** The bullets `clean_list_text` removes: the detection ones and once more `[•]`. */
  const BulletCleanPatterns: seq<Pattern> := BulletDetectPatterns + [Pattern(BulletDot, false, None)]

  /** The numbered markers `clean_list_text` removes in the converters: the detection ones. */
  const NumberCleanPatterns: seq<Pattern> := NumberDetectPatterns

  /** The numbered markers of the enhanced converter's `clean_list_text`: `\d+\)` twice, and a last roman pattern ending in `.`. */
  const EnhancedNumberCleanPatterns: seq<Pattern> := [
    Pattern(DigitClass, true, Some('.')), Pattern(DigitClass, true, Some(')')),
    Pattern(DigitClass, true, Some(')')),
    Pattern(LetterClass, false, Some('.')), Pattern(LetterClass, false, Some(')')),
    Pattern(RomanClass, true, Some('.')), Pattern(UpperRomanClass, true, Some('.'))]

  lemma AllWellFormed()
    ensures forall p :: p in BulletCleanPatterns ==> WellFormed(p)
    ensures forall p :: p in NumberCleanPatterns ==> WellFormed(p)
    ensures forall p :: p in EnhancedNumberCleanPatterns ==> WellFormed(p)
  {
    forall p | p in BulletCleanPatterns + NumberCleanPatterns + EnhancedNumberCleanPatterns
      ensures WellFormed(p)
    {
      ClassHoldsNoSpace(p.cls);
    }
  }

  lemma ClassHoldsNoSpace(k: CharClass)
    ensures forall c :: InClass(c, k) ==> !IsSpace(c)
  {
  }

  datatype ListKind = Unordered | Ordered

  /** Which `clean_list_text` is meant. */
  datatype Cleaner = StandardCleaner | EnhancedCleaner

  function CleanPatterns(c: Cleaner, kind: ListKind): seq<Pattern> {
    match kind
    case Unordered => BulletCleanPatterns
    case Ordered => if c == StandardCleaner then NumberCleanPatterns else EnhancedNumberCleanPatterns
  }

  /** `clean_list_text`: strip, remove the markers of the list kind in order, strip again. */
  function CleanListText(c: Cleaner, text: string, kind: ListKind): string {
    Strip(SubAll(CleanPatterns(c, kind), Strip(text)))
  }

  /** The loop of `clean_list_text`: each pattern in turn, applied to what the previous ones left. */
  method ApplyPatterns(ps: seq<Pattern>, s: string) returns (r: string)
    ensures r == SubAll(ps, s)
  {
    r := s;
    for k := 0 to |ps|
      invariant r == SubAll(ps[..k], s)
    {
      assert ps[..k + 1][..k] == ps[..k];
      r := Sub(ps[k], r);
    }
    assert ps[..|ps|] == ps;
  }

  /** `clean_list_text` as the converters run it. */
  method CleanListTextLoop(c: Cleaner, text: string, kind: ListKind) returns (r: string)
    ensures r == CleanListText(c, text, kind)
    ensures r == Strip(r)
  {
    r := ApplyPatterns(CleanPatterns(c, kind), Strip(text));
    StripIdempotent(r);
    r := Strip(r);
  }

  /** The cleaned text is a piece of the original text. */
  lemma CleanedIsPiece(c: Cleaner, text: string, kind: ListKind)
    ensures Contains(text, CleanListText(c, text, kind))
  {
    var t := Strip(text);
    var u := SubAll(CleanPatterns(c, kind), t);
    var i := StrippedAt(text);
    var j := SubAllAt(CleanPatterns(c, kind), t);
    var k := StrippedAt(u);
    PieceOfPiece(text, t, u, i, j);
    PieceOfPiece(text, u, Strip(u), i + j, k);
  }

  lemma StrippedAt(s: string) returns (i: int)
    ensures OccursAt(s, Strip(s), i)
  {
    StripIsPiece(s);
    i := |s| - |LStrip(s)|;
  }

  lemma SubAllAt(ps: seq<Pattern>, s: string) returns (i: int)
    ensures OccursAt(s, SubAll(ps, s), i)
  {
    SubAllSuffix(ps, s);
    i := |s| - |SubAll(ps, s)|;
  }

  lemma PieceOfPiece(a: string, b: string, c: string, i: int, j: int)
    requires OccursAt(a, b, i) && OccursAt(b, c, j)
    ensures OccursAt(a, c, i + j)
  {
    assert a[i..i + |b|] == b;
    forall k | 0 <= k < |c|
      ensures a[i + j + k] == c[k]
    {
      assert c[k] == b[j + k] == a[i + j + k];
    }
  }

  /** When no pattern applies to the text as it stands, the patterns leave it alone. */
  lemma {:induction false} SubAllNoMatch(ps: seq<Pattern>, s: string)
    requires forall k :: 0 <= k < |ps| ==> MatchLen(ps[k], s).None?
    ensures SubAll(ps, s) == s
  {
    if ps != [] {
      SubAllNoMatch(ps[..|ps| - 1], s);
    }
  }

  /** Applying the patterns through a chain of intermediate texts. */
  lemma {:induction false} SubAllChain(ps: seq<Pattern>, s: string, mids: seq<string>)
    requires |mids| == |ps| + 1 && mids[0] == s
    requires forall k :: 0 <= k < |ps| ==> Sub(ps[k], mids[k]) == mids[k + 1]
    ensures SubAll(ps, s) == mids[|ps|]
  {
    if ps != [] {
      SubAllChain(ps[..|ps| - 1], s, mids[..|ps|]);
    }
  }

  /** A text that does not open with a class character matches no pattern of that class. */
  lemma NoMatchFirst(p: Pattern, s: string)
    requires s == [] || !InClass(s[0], p.cls)
    ensures MatchLen(p, s).None?
  {
  }

  /** Every marker needs at least a class character and a blank. */
  lemma NoMatchShort(p: Pattern, s: string)
    requires |s| < 2
    ensures MatchLen(p, s).None?
  {
  }

  /**
   * A marker of `i` class characters, its terminator and one blank, followed by a
   * non-blank character, is matched with exactly that length.
   */
  lemma MarkerAt(p: Pattern, s: string, i: nat)
    requires p.term.Some? && 1 <= i && i + 2 < |s| && (!p.many ==> i == 1)
    requires forall k :: 0 <= k < i ==> InClass(s[k], p.cls)
    requires !InClass(s[i], p.cls) && s[i] == p.term.value
    requires IsSpace(s[i + 1]) && !IsSpace(s[i + 2])
    ensures MatchLen(p, s) == Some(i + 2)
  {
    if p.many {
      ClassSpanAtLeast(p.cls, s, i);
      ClassSpanShape(p.cls, s);
    }
    assert ClassPart(p, s) == i;
    assert s[i + 1..][0] == s[i + 1] && s[i + 1..][1] == s[i + 2];
    assert s[i + 1..][1..][0] == s[i + 2];
    assert SpaceSpan(s[i + 1..]) == 1;
  }

  /** A class part closed by the wrong character is no match. */
  lemma TermMismatch(p: Pattern, s: string, i: nat)
    requires p.term.Some? && i < |s| && s[i] != p.term.value
    requires ClassPart(p, s) == i
    ensures MatchLen(p, s).None?
  {
  }

  lemma ClassSpanExactly(k: CharClass, s: string, n: nat)
    requires n < |s| && !InClass(s[n], k)
    requires forall j :: 0 <= j < n ==> InClass(s[j], k)
    ensures ClassSpan(k, s) == n
  {
    ClassSpanAtLeast(k, s, n);
    ClassSpanShape(k, s);
  }

  /**
   * On a text without surrounding blanks whose markers leave a stripped remainder,
   * `clean_list_text` is exactly the pattern removal.
   */
  lemma CleanOfStripped(c: Cleaner, kind: ListKind, text: string, r: string)
    requires Strip(text) == text && SubAll(CleanPatterns(c, kind), text) == r && Strip(r) == r
    ensures CleanListText(c, text, kind) == r
  {
  }

  /** Some pattern of the list matches at the start of `s` (`any(re.match(p, s) ...)`). */
  predicate AnyMatch(ps: seq<Pattern>, s: string) {
    exists k :: 0 <= k < |ps| && MatchLen(ps[k], s).Some?
  }

  /** The text fallback of the detection: stripped text against the bullet, then the numbered patterns. */
  function DetectFromText(text: string): (r: Option<(ListKind, int)>)
    ensures r.Some? ==> r.value.1 == 0
  {
    var t := Strip(text);
    if t == [] then None
    else if AnyMatch(BulletDetectPatterns, t) then Some((Unordered, 0))
    else if AnyMatch(NumberDetectPatterns, t) then Some((Ordered, 0))
    else if StartsWith(t, "    ") || StartsWith(t, "\t") then
      assert IsSpace(t[0]);
      assert false;
      Some((Unordered, 1))
    else None
  }

  /** A text that `clean_list_text` would strip of a numbered marker is detected as ordered, unless it is also a bullet. */
  lemma DetectFromTextOrdered(text: string)
    requires AnyMatch(NumberDetectPatterns, Strip(text)) && !AnyMatch(BulletDetectPatterns, Strip(text))
    ensures DetectFromText(text) == Some((Ordered, 0))
  {
  }
}
