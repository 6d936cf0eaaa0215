/**
 * `detect_list_type_and_level`: how a paragraph is recognised as a list item, and at which level,
 * from its style, its numbering record or its text.
 */
module ListDetection {
  import opened Wrappers
  import opened OrgStrings
  import opened Docx
  import opened Lists

  /** How levels read from the XML are kept: converted with `int()`, or left as the attribute's string. */
  datatype LevelRead = IntLevels | StringLevels

  /** A detected level: an integer, or the raw attribute string. */
  datatype Level = IntLevel(n: int) | StrLevel(s: string)

  /** `(list_type, level)`; `NotList` is `(None, 0)`. */
  datatype Detection = NotList | ListItem(kind: ListKind, level: Level)

  /** The `' 2'` / `' 3'` suffix rule applied to a level 0 found by way of the style. */
  function SuffixLevel(name: string): int {
    if EndsWith(name, " 2") then 1 else if EndsWith(name, " 3") then 2 else 0
  }

  /**
   * The level from a list style: the first `w:ilvl` of the style (parsed or kept as text),
   * `0` when there is none, and the suffix rule when that comes to the integer 0. `None`
   * stands for `int()` raising.
   */
  function StyleLevel(read: LevelRead, name: string, ilvl: Option<string>): Option<Level> {
    match ilvl
    case None => Some(IntLevel(SuffixLevel(name)))
    case Some(v) =>
      if read == StringLevels then Some(StrLevel(v))
      else
        match ParseInt(v)
        case None => None
        case Some(n) => Some(IntLevel(if n == 0 then SuffixLevel(name) else n))
  }

  /**
   * The style step of `detect_list_type_and_level`: `None` when the style does not decide,
   * `Some(d)` when it does. A lowered name containing `list` and a bullet or number word
   * decides; a `None` name or an `int()` that fails raises, which the caller turns into `NotList`.
   */
  function StyleDetection(read: LevelRead, style: Option<Style>): Option<Detection> {
    match style
    case None => None
    case Some(st) =>
      match st.name
      case None => Some(NotList)
      case Some(nm) =>
        var name := Lower(nm);
        if !Contains(name, "list") then None
        else if Contains(name, "bullet") || Contains(name, "unordered") then
          Some(match StyleLevel(read, name, st.ilvl) case None => NotList case Some(l) => ListItem(Unordered, l))
        else if Contains(name, "number") || Contains(name, "ordered") then
          Some(match StyleLevel(read, name, st.ilvl) case None => NotList case Some(l) => ListItem(Ordered, l))
        else None
  }

  /** The numbering step: the record's `w:ilvl` (`'0'` when absent) through `int()`; ordered when it has a `w:numId`. */
  function NumberingDetection(np: NumPr): Detection {
    var v := if np.ilvl.Some? then np.ilvl.value else "0";
    match ParseInt(v)
    case None => NotList
    case Some(n) => ListItem(if np.hasNumId then Ordered else Unordered, IntLevel(n))
  }

  /**
   * `detect_list_type_and_level`: the style step, then a `w:numPr` record, then the text
   * patterns. An exception anywhere gives `NotList`.
   */
  function DetectList(read: LevelRead, p: Paragraph): (d: Detection)
    ensures read == IntLevels && d.ListItem? ==> d.level.IntLevel?
  {
    match StyleDetection(read, p.style)
    case Some(d) => d
    case None =>
      match p.numPr
      case Some(np) => NumberingDetection(np)
      case None =>
        match DetectFromText(ParagraphText(p.runs))
        case Some((k, n)) => ListItem(k, IntLevel(n))
        case None => NotList
  }

  /** A bullet list style decides whatever the numbering record and the text say. */
  lemma StylePrecedes(read: LevelRead, p: Paragraph)
    requires p.style.Some? && p.style.value.name.Some?
    requires var name := Lower(p.style.value.name.value);
      Contains(name, "list") && (Contains(name, "bullet") || Contains(name, "unordered"))
    requires read == StringLevels || p.style.value.ilvl.None?
    ensures DetectList(read, p).ListItem? && DetectList(read, p).kind == Unordered
  {
  }

  /** Without a list style the numbering record decides: ordered exactly when it has a `w:numId`. */
  lemma NumberingDecides(read: LevelRead, p: Paragraph, n: int)
    requires p.style.None? || (p.style.value.name.Some? && !Contains(Lower(p.style.value.name.value), "list"))
    requires p.numPr.Some? && ParseInt(if p.numPr.value.ilvl.Some? then p.numPr.value.ilvl.value else "0") == Some(n)
    ensures DetectList(read, p) == ListItem(if p.numPr.value.hasNumId then Ordered else Unordered, IntLevel(n))
  {
    StyleWithoutListSkipped(read, p.style);
    NumberingStep(read, p);
    NumberingValue(p.numPr.value, n);
  }

  lemma NumberingValue(np: NumPr, n: int)
    requires ParseInt(if np.ilvl.Some? then np.ilvl.value else "0") == Some(n)
    ensures NumberingDetection(np) == ListItem(if np.hasNumId then Ordered else Unordered, IntLevel(n))
  {
  }

  lemma StyleWithoutListSkipped(read: LevelRead, style: Option<Style>)
    requires style.None? || (style.value.name.Some? && !Contains(Lower(style.value.name.value), "list"))
    ensures StyleDetection(read, style).None?
  {
  }

  lemma NumberingStep(read: LevelRead, p: Paragraph)
    requires StyleDetection(read, p.style).None? && p.numPr.Some?
    ensures DetectList(read, p) == NumberingDetection(p.numPr.value)
  {
  }

  /** A style without a name raises inside the cascade, so nothing further is looked at. */
  lemma NamelessStyleIsNotList(read: LevelRead, p: Paragraph)
    requires p.style.Some? && p.style.value.name.None?
    ensures DetectList(read, p) == NotList
  {
  }

  /** With neither a list style nor a numbering record, only level 0 can come out. */
  lemma TextFallbackLevel(read: LevelRead, p: Paragraph)
    requires p.style.None? && p.numPr.None?
    ensures DetectList(read, p).ListItem? ==> DetectList(read, p).level == IntLevel(0)
  {
  }

  /**
   * A level found in the style's XML stays a string when levels are not parsed, so the
   * `== 0` test fails and the suffix rule applies only when the style has no `w:ilvl`.
   */
  lemma StringLevelsSkipSuffixRule(p: Paragraph, v: string)
    requires p.style.Some? && p.style.value.name.Some? && p.style.value.ilvl == Some(v)
    requires var name := Lower(p.style.value.name.value);
      Contains(name, "list") && (Contains(name, "bullet") || Contains(name, "unordered"))
    ensures DetectList(StringLevels, p) == ListItem(Unordered, StrLevel(v))
  {
  }

  /** With parsed levels, an `ilvl` of `0` on a `... 2` style gives level 1. */
  lemma IntLevelsSuffixRule(p: Paragraph)
    requires p.style.Some? && p.style.value.name.Some? && p.style.value.ilvl == Some("0")
    requires var name := Lower(p.style.value.name.value);
      Contains(name, "list") && Contains(name, "bullet") && EndsWith(name, " 2")
    ensures DetectList(IntLevels, p) == ListItem(Unordered, IntLevel(1))
  {
    assert ParseInt("0") == Some(0) by {
      ParseIntOfNatToString(0);
    }
  }
}
