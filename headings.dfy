/**
 * The enhanced converter's reading of headings and run formatting: `detect_heading_level`
 * looks the lowered style name, then the style id, up in a `heading N` table, tries a
 * number pattern, then the title styles; `get_run_formatting` takes bold and italic from
 * the run, its font or its character style.
 */
module Headings {
  import opened Wrappers
  import opened OrgStrings
  import opened Docx

  /** `heading_map`: `heading N` and `headingN` for `N` from 1 to 9. */
  function HeadingMap(s: string): Option<int> {
    if |s| == 9 && s[..8] == "heading " && '1' <= s[8] <= '9' then Some(s[8] as int - '0' as int)
    else if |s| == 8 && s[..7] == "heading" && '1' <= s[7] <= '9' then Some(s[7] as int - '0' as int)
    else None
  }

  /** The table has exactly the eighteen keys `heading N` and `headingN`, each mapped to its `N`. */
  lemma HeadingMapKeys(s: string, n: int)
    ensures HeadingMap(s) == Some(n) <==>
      1 <= n <= 9 && (s == "heading " + [DigitChar(n)] || s == "heading" + [DigitChar(n)])
  {
    if 1 <= n <= 9 {
      var d := DigitChar(n);
      var a, b := "heading " + [d], "heading" + [d];
      assert a[..8] == "heading " && a[8] == d;
      assert b[..7] == "heading" && b[7] == d;
      if HeadingMap(s) == Some(n) {
        if |s| == 9 {
          assert s == s[..8] + [s[8]];
        } else {
          assert s == s[..7] + [s[7]];
        }
      }
    }
  }

  /** The length of the run of `c` at the start of `s`. */
  function RunOf(c: char, s: string): (n: nat)
    ensures n <= |s|
  {
    if s != [] && s[0] == c then 1 + RunOf(c, s[1..]) else 0
  }

  lemma {:induction false} RunOfShape(c: char, s: string)
    ensures forall j :: 0 <= j < RunOf(c, s) ==> s[j] == c
    ensures RunOf(c, s) == |s| || s[RunOf(c, s)] != c
  {
    if s != [] && s[0] == c {
      RunOfShape(c, s[1..]);
      forall j | 1 <= j < RunOf(c, s)
        ensures s[j] == c
      {
        assert s[j] == s[1..][j - 1];
      }
    }
  }

  /**
   * `re.match(r'headings*(d+)', s)` at one position: `heading`, any number of `s`, then at
   * least one `d`; the group is the run of `d`. Since `s` is not `d`, taking the `s` run
   * whole is the only way to go on.
   */
  function GroupAt(s: string): Option<string> {
    if |s| >= 7 && s[..7] == "heading" then
      var rest := s[7..];
      var k := RunOf('s', rest);
      var g := RunOf('d', rest[k..]);
      if g == 0 then None else Some(rest[k..][..g])
    else None
  }

  /** `re.search`: the group of the leftmost position where the pattern matches. */
  function RegexGroup(s: string): (r: Option<string>)
    decreases |s|
  {
    if s == [] then None
    else if GroupAt(s).Some? then GroupAt(s)
    else RegexGroup(s[1..])
  }

  /** What the pattern captures is a non-empty run of `d`. */
  lemma {:induction false} RegexGroupIsDs(s: string)
    ensures RegexGroup(s).Some? ==> RegexGroup(s).value != [] && forall j :: 0 <= j < |RegexGroup(s).value| ==> RegexGroup(s).value[j] == 'd'
    decreases |s|
  {
    if s != [] {
      if GroupAt(s).Some? {
        var rest := s[7..];
        var k := RunOf('s', rest);
        RunOfShape('d', rest[k..]);
      } else {
        RegexGroupIsDs(s[1..]);
      }
    }
  }

  /** `int()` of a run of `d` raises: the pattern, written without backslashes, never gives a number. */
  lemma DsAreNoNumber(g: string)
    requires g != [] && forall j :: 0 <= j < |g| ==> g[j] == 'd'
    ensures ParseInt(g) == None
  {
    StripLiteral(g);
    assert !IsDigit(g[0]);
  }

  /**
   * `detect_heading_level`: `0` without a style or when the name or id is missing (the
   * `.lower()` raises); the table on the lowered name, then on the lowered id; then the
   * number pattern, whose `int()` raises; then `title` and `subtitle` as level 1.
   */
  function DetectHeadingLevel(p: Paragraph): (level: int)
    ensures 0 <= level <= 9
  {
    match p.style
    case None => 0
    case Some(st) =>
      match st.name
      case None => 0
      case Some(nm) =>
        match st.styleId
        case None => 0
        case Some(id) =>
          var name, sid := Lower(nm), Lower(id);
          if HeadingMap(name).Some? then HeadingMap(name).value
          else if HeadingMap(sid).Some? then HeadingMap(sid).value
          else if RegexGroup(name).Some? then
            RegexGroupIsDs(name);
            DsAreNoNumber(RegexGroup(name).value);
            match ParseInt(RegexGroup(name).value)
            case Some(n) => n
            case None => 0
          else if name == "title" || name == "subtitle" then 1
          else 0
  }

  /** The name is looked up before the id: a heading name decides whatever the id says. */
  lemma NameBeforeId(nm: string, id: string, ilvl: Option<string>, p: Paragraph, n: int)
    requires p.style == Some(Style(Some(nm), Some(id), ilvl))
    requires HeadingMap(Lower(nm)) == Some(n)
    ensures DetectHeadingLevel(p) == n && 1 <= n <= 9
  {
    HeadingMapKeys(Lower(nm), n);
  }

  /** A name outside the table leaves the decision to the id. */
  lemma IdAfterName(nm: string, id: string, ilvl: Option<string>, p: Paragraph, n: int)
    requires p.style == Some(Style(Some(nm), Some(id), ilvl))
    requires HeadingMap(Lower(nm)).None? && HeadingMap(Lower(id)) == Some(n)
    ensures DetectHeadingLevel(p) == n && 1 <= n <= 9
  {
    HeadingMapKeys(Lower(id), n);
  }

  /**
   * Outside the table the level is 1 for `title` and `subtitle` and 0 for everything else:
   * the number pattern contributes nothing.
   */
  lemma OffTableLevels(nm: string, id: string, ilvl: Option<string>, p: Paragraph)
    requires p.style == Some(Style(Some(nm), Some(id), ilvl))
    requires HeadingMap(Lower(nm)).None? && HeadingMap(Lower(id)).None?
    ensures DetectHeadingLevel(p) == if Lower(nm) == "title" || Lower(nm) == "subtitle" then 1 else 0
  {
    var name := Lower(nm);
    if RegexGroup(name).Some? {
      RegexGroupIsDs(name);
      DsAreNoNumber(RegexGroup(name).value);
      assert name != "title" && name != "subtitle" by {
        RegexNeedsHeading(name);
      }
    }
  }

  /** A name the number pattern matches holds the `h` of `heading`. */
  lemma {:induction false} RegexNeedsHeading(s: string)
    requires RegexGroup(s).Some?
    ensures 'h' in s
    decreases |s|
  {
    if GroupAt(s).None? {
      RegexNeedsHeading(s[1..]);
      var j :| 0 <= j < |s[1..]| && s[1..][j] == 'h';
      assert s[j + 1] == 'h';
    } else {
      assert s[..7][0] == 'h';
      assert s[0] == 'h';
    }
  }

  /** A paragraph is a heading only by way of a named style with an id. */
  lemma HeadingNeedsStyle(p: Paragraph)
    requires DetectHeadingLevel(p) != 0
    ensures p.style.Some? && p.style.value.name.Some? && p.style.value.styleId.Some?
  {
  }

  /** A tri-state formatting flag is taken only when it `is True`. */
  predicate IsTrue(flag: Option<bool>) {
    flag == Some(true)
  }

  /** The bold and italic flags of one formatting source. */
  datatype Flags = Flags(bold: Option<bool>, italic: Option<bool>)

  /** What `get_run_formatting` reads: the run's own flags, its font's, and its character style's font, if it has a style. */
  datatype RunFormat = RunFormat(direct: Flags, font: Flags, charStyle: Option<Flags>)

  /** The returned dict. */
  datatype Formatting = Formatting(bold: bool, italic: bool, normal: bool)

  /**
   * `get_run_formatting`: each flag is set by the first source that has it `True` (the run,
   * then its font, then its character style); `normal` is what remains otherwise.
   */
  function RunFormatting(r: RunFormat): (f: Formatting)
    ensures f.normal <==> !f.bold && !f.italic
    ensures f.bold <==> (IsTrue(r.direct.bold) || IsTrue(r.font.bold)
                         || (r.charStyle.Some? && IsTrue(r.charStyle.value.bold)))
    ensures f.italic <==> (IsTrue(r.direct.italic) || IsTrue(r.font.italic)
                           || (r.charStyle.Some? && IsTrue(r.charStyle.value.italic)))
  {
    var bold1 := IsTrue(r.direct.bold);
    var italic1 := IsTrue(r.direct.italic);
    var bold2 := bold1 || IsTrue(r.font.bold);
    var italic2 := italic1 || IsTrue(r.font.italic);
    var consult := (!bold2 || !italic2) && r.charStyle.Some?;
    var bold3 := bold2 || (consult && IsTrue(r.charStyle.value.bold));
    var italic3 := italic2 || (consult && IsTrue(r.charStyle.value.italic));
    if bold3 && italic3 then Formatting(true, true, false)
    else if bold3 then Formatting(true, false, false)
    else if italic3 then Formatting(false, true, false)
    else Formatting(false, false, true)
  }

  /** A `False` on the run does not hide a `True` on its font or style: only `True` is ever taken. */
  lemma FalseDoesNotOverride(r: RunFormat)
    requires r.direct.bold == Some(false) && r.charStyle.Some? && IsTrue(r.charStyle.value.bold)
    ensures RunFormatting(r).bold && !RunFormatting(r).normal
  {
  }
}
