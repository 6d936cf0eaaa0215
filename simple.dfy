/**
 * The simple converter's `convert_docx_to_org`: note lines carrying the source ids, one
 * line per non-blank paragraph with a `*`, `**` or `***` prefix for the first three
 * heading styles, and a `(success, message)` result.
 */
module SimpleConverter {
  import opened Wrappers
  import opened OrgStrings
  import opened Seqs
  import opened Docx

  // ---------------------------------------------------------------- notes

  /** A note element becomes a line when its id is present and not `"0"` and some `w:t` text is non-empty. */
  predicate SimpleKept(e: NoteElement) {
    e.id != "" && e.id != "0" && exists j :: 0 <= j < |e.texts| && e.texts[j] != []
  }

  /** `[fn:<id>] <texts joined>`: the source id, not a running number, and the text unstripped. */
  function SimpleNoteLine(e: NoteElement): string {
    "[fn:" + e.id + "] " + Flatten(e.texts)
  }

  /** The lines of one parsed part, in element order. */
  function PartLines(es: seq<NoteElement>): seq<string> {
    if es == [] then []
    else PartLines(es[..|es| - 1]) + (if SimpleKept(es[|es| - 1]) then [SimpleNoteLine(es[|es| - 1])] else [])
  }

  /**
   * The footnote lines: the parts found through the relationships, in order, up to the
   * first one that does not parse; the swallowed exception keeps the lines made so far.
   */
  function SimpleNotes(parts: seq<Option<seq<NoteElement>>>): seq<string> {
    if parts == [] || parts[0].None? then []
    else PartLines(parts[0].value) + SimpleNotes(parts[1..])
  }

  /** A line exists exactly for each kept element, and it carries that element's own id. */
  lemma {:induction false} PartLinesExact(es: seq<NoteElement>, line: string)
    ensures line in PartLines(es) <==> exists e :: e in es && SimpleKept(e) && line == SimpleNoteLine(e)
  {
    if es != [] {
      var init, e0 := es[..|es| - 1], es[|es| - 1];
      PartLinesExact(init, line);
      assert es == init + [e0];
      if line in PartLines(es) {
        if line in PartLines(init) {
          var e :| e in init && SimpleKept(e) && line == SimpleNoteLine(e);
          assert e in es;
        } else {
          assert e0 in es && SimpleKept(e0) && line == SimpleNoteLine(e0);
        }
      } else {
        forall e | e in es && SimpleKept(e) ensures line != SimpleNoteLine(e) {
          if e !in init {
            assert e == e0;
          }
        }
      }
    }
  }

  /** Non-empty `w:t` texts joined are non-empty exactly when one of them is. */
  lemma {:induction false} TextPartsNonEmpty(texts: seq<string>)
    ensures Flatten(texts) != [] <==> exists j :: 0 <= j < |texts| && texts[j] != []
  {
    if texts != [] {
      var n := |texts| - 1;
      TextPartsNonEmpty(texts[..n]);
      if texts[n] == [] {
        forall j | 0 <= j < |texts| && texts[j] != [] ensures j < n && texts[..n][j] != [] { }
      } else {
        assert texts[n] != [];
      }
      if exists j :: 0 <= j < n && texts[..n][j] != [] {
        var j :| 0 <= j < n && texts[..n][j] != [];
        assert texts[j] != [];
      }
    }
  }

  // ---------------------------------------------------------------- paragraphs

  /** The substring tests in their order: `heading 1` first, so `heading 10` is a top heading. */
  function HeadingPrefix(styleName: string): string {
    if Contains(styleName, "heading 1") then "* "
    else if Contains(styleName, "heading 2") then "** "
    else if Contains(styleName, "heading 3") then "*** "
    else ""
  }

  /**
   * The lines of one paragraph: none when its stripped text is blank; otherwise the text
   * under the style's prefix. A style without a name raises when lowered.
   */
  function SimpleParagraph(p: Paragraph): Result<seq<string>, string> {
    var text := Strip(ParagraphText(p.runs));
    if text == [] then Ok([])
    else
      match p.style
      case None => Ok([text])
      case Some(st) =>
        match st.name
        case None => Err("AttributeError")
        case Some(nm) => Ok([HeadingPrefix(Lower(nm)) + text])
  }

  /** All paragraphs in order; the first exception ends the conversion. */
  function SimpleLines(ps: seq<Paragraph>): Result<seq<string>, string> {
    if ps == [] then Ok([])
    else
      match SimpleLines(ps[..|ps| - 1])
      case Err(e) => Err(e)
      case Ok(init) =>
        match SimpleParagraph(ps[|ps| - 1])
        case Err(e) => Err(e)
        case Ok(ls) => Ok(init + ls)
  }

  /** The function's `(success, message)` and the text it writes, when it writes one. */
  datatype Outcome = Outcome(success: bool, message: string, written: Option<string>)

  /**
   * `convert_docx_to_org`: an existing output without `overwrite` is refused before any
   * work; otherwise the lines, and the notes under `* Footnotes` when there are any,
   * joined with a blank line between them.
   */
  function SimpleConvert(outputExists: bool, overwrite: bool, parts: seq<Option<seq<NoteElement>>>,
                         ps: seq<Paragraph>): Outcome
  {
    if outputExists && !overwrite then Outcome(false, "Output file exists", None)
    else
      var notes := SimpleNotes(parts);
      match SimpleLines(ps)
      case Err(e) => Outcome(false, e, None)
      case Ok(lines) =>
        Outcome(true, "Success", Some(Join(lines + (if notes == [] then [] else ["", "* Footnotes"] + notes), "\n\n")))
  }

  /** A refused conversion writes nothing, whatever the document holds. */
  lemma ExistingOutputRefused(parts: seq<Option<seq<NoteElement>>>, ps: seq<Paragraph>)
    ensures SimpleConvert(true, false, parts, ps) == Outcome(false, "Output file exists", None)
  {
  }

  /** `heading 10` contains `heading 1`, so it is written as a top-level heading. */
  lemma HeadingTenIsTopLevel(name: string)
    requires name == "heading 10"
    ensures HeadingPrefix(name) == "* "
  {
    assert name[0..9] == "heading 1";
    assert OccursAt(name, "heading 1", 0);
  }

  /** A paragraph line is its stripped, non-blank text under the prefix its style gives. */
  lemma {:induction false} SimpleLinesShape(ps: seq<Paragraph>)
    requires SimpleLines(ps).Ok?
    ensures |SimpleLines(ps).value| <= |ps|
    ensures forall k :: 0 <= k < |SimpleLines(ps).value| ==> SimpleLines(ps).value[k] != []
    ensures forall k :: 0 <= k < |SimpleLines(ps).value| ==>
              exists i :: 0 <= i < |ps| && SimpleParagraph(ps[i]) == Ok([SimpleLines(ps).value[k]])
  {
    if ps != [] {
      var front := ps[..|ps| - 1];
      var init := SimpleLines(front).value;
      SimpleLinesShape(front);
      var ls := SimpleParagraph(ps[|ps| - 1]).value;
      forall k | 0 <= k < |init + ls|
        ensures (init + ls)[k] != []
        ensures exists i :: 0 <= i < |ps| && SimpleParagraph(ps[i]) == Ok([(init + ls)[k]])
      {
        if k >= |init| {
          assert (init + ls)[k] == ls[k - |init|];
          assert ls == [ls[0]];
          assert SimpleParagraph(ps[|ps| - 1]) == Ok([(init + ls)[k]]);
        } else {
          assert (init + ls)[k] == init[k];
          var i :| 0 <= i < |front| && SimpleParagraph(front[i]) == Ok([init[k]]);
          assert front[i] == ps[i];
        }
      }
    }
  }

  // ---------------------------------------------------------------- the loops

  /** The text loop of one element: the `w:t` texts that are non-empty, joined. */
  method ElementTextParts(texts: seq<string>) returns (parts: seq<string>)
    ensures Flatten(parts) == Flatten(texts)
    ensures parts != [] <==> Flatten(texts) != []
  {
    parts := [];
    var k := 0;
    while k < |texts|
      invariant 0 <= k <= |texts|
      invariant Flatten(parts) == Flatten(texts[..k])
      invariant forall j :: 0 <= j < |parts| ==> parts[j] != []
    {
      assert texts[..k + 1][..k] == texts[..k];
      if texts[k] != [] {
        parts := parts + [texts[k]];
      }
      k := k + 1;
    }
    assert texts[..k] == texts;
    if parts != [] {
      FlattenAppend(parts[..|parts| - 1], [parts[|parts| - 1]]);
      FlattenSingle(parts[|parts| - 1]);
      assert parts[..|parts| - 1] + [parts[|parts| - 1]] == parts;
    }
  }

  /** The footnote loops: parts in order, each kept element's line appended, the first failure ending them. */
  method CollectNotes(parts: seq<Option<seq<NoteElement>>>) returns (footnotes: seq<string>)
    ensures footnotes == SimpleNotes(parts)
  {
    footnotes := [];
    var k := 0;
    while k < |parts| && parts[k].Some?
      invariant 0 <= k <= |parts|
      invariant forall j :: 0 <= j < k ==> parts[j].Some?
      invariant footnotes + SimpleNotes(parts[k..]) == SimpleNotes(parts)
      decreases |parts| - k
    {
      var lines := CollectPartLines(parts[k].value);
      assert parts[k..][1..] == parts[k + 1..];
      footnotes := footnotes + lines;
      k := k + 1;
    }
    assert footnotes + SimpleNotes(parts[k..]) == footnotes + [];
  }

  method CollectPartLines(es: seq<NoteElement>) returns (lines: seq<string>)
    ensures lines == PartLines(es)
  {
    lines := [];
    var i := 0;
    while i < |es|
      invariant 0 <= i <= |es|
      invariant lines == PartLines(es[..i])
    {
      assert es[..i + 1][..i] == es[..i];
      var e := es[i];
      if e.id != "" && e.id != "0" {
        var textParts := ElementTextParts(e.texts);
        TextPartsNonEmpty(e.texts);
        if textParts != [] {
          lines := lines + ["[fn:" + e.id + "] " + Flatten(textParts)];
        }
      }
      i := i + 1;
    }
    assert es[..i] == es;
  }

  /** The paragraph loop. */
  method CollectLines(ps: seq<Paragraph>) returns (r: Result<seq<string>, string>)
    ensures r == SimpleLines(ps)
  {
    var content: seq<string> := [];
    var i := 0;
    while i < |ps|
      invariant 0 <= i <= |ps|
      invariant SimpleLines(ps[..i]) == Ok(content)
    {
      SimpleLinesSnoc(ps, i);
      var lines := ParagraphLines(ps[i]);
      if lines.Err? {
        SimpleLinesErr(ps, i + 1, lines.error);
        return lines;
      }
      content := content + lines.value;
      i := i + 1;
    }
    assert ps[..i] == ps;
    return Ok(content);
  }

  /** The body of the paragraph loop: strip, skip a blank, lower the style name, test the headings. */
  method ParagraphLines(p: Paragraph) returns (r: Result<seq<string>, string>)
    ensures r == SimpleParagraph(p)
  {
    var text := Strip(ParagraphText(p.runs));
    if text == [] {
      return Ok([]);
    }
    var styleName := "";
    if p.style.Some? {
      if p.style.value.name.None? {
        return Err("AttributeError");
      }
      styleName := Lower(p.style.value.name.value);
    } else {
      assert !Contains(styleName, "heading 1") && !Contains(styleName, "heading 2") && !Contains(styleName, "heading 3");
    }
    if Contains(styleName, "heading 1") {
      return Ok(["* " + text]);
    } else if Contains(styleName, "heading 2") {
      return Ok(["** " + text]);
    } else if Contains(styleName, "heading 3") {
      return Ok(["*** " + text]);
    }
    assert HeadingPrefix(styleName) + text == text;
    return Ok([text]);
  }

  lemma SimpleLinesSnoc(ps: seq<Paragraph>, i: nat)
    requires i < |ps|
    ensures SimpleLines(ps[..i + 1]) ==
      match SimpleLines(ps[..i])
      case Err(e) => Err(e)
      case Ok(init) =>
        match SimpleParagraph(ps[i])
        case Err(e) => Err(e)
        case Ok(ls) => Ok(init + ls)
  {
    assert ps[..i + 1][..i] == ps[..i];
  }

  /** Once the paragraphs up to `i` have failed, the conversion fails with that error. */
  lemma {:induction false} SimpleLinesErr(ps: seq<Paragraph>, i: nat, e: string)
    requires i <= |ps| && SimpleLines(ps[..i]) == Err(e)
    ensures SimpleLines(ps) == Err(e)
    decreases |ps| - i
  {
    if i == |ps| {
      assert ps[..i] == ps;
    } else {
      SimpleLinesSnoc(ps, i);
      SimpleLinesErr(ps, i + 1, e);
    }
  }

  /** `convert_docx_to_org` as the source runs it. */
  method ConvertDocxToOrg(outputExists: bool, overwrite: bool, parts: seq<Option<seq<NoteElement>>>,
                          ps: seq<Paragraph>) returns (outcome: Outcome)
    ensures outcome == SimpleConvert(outputExists, overwrite, parts, ps)
  {
    if outputExists && !overwrite {
      return Outcome(false, "Output file exists", None);
    }
    var footnotes := CollectNotes(parts);
    var r := CollectLines(ps);
    if r.Err? {
      return Outcome(false, r.error, None);
    }
    var content := r.value;
    if footnotes != [] {
      content := content + (["", "* Footnotes"] + footnotes);
    } else {
      assert content + [] == content;
    }
    return Outcome(true, "Success", Some(Join(content, "\n\n")));
  }
}
