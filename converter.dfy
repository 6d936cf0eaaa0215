/**
 * The converter class shared, with small differences, by four of the scripts: the note
 * table and the two list stacks are fields that `process_paragraph` and
 * `convert_docx_to_org` update in place. The four variants differ in what they read:
 *  - `Complete`: lists, levels parsed with `int()`, token-carrying bold pieces;
 *  - `CompleteNew`: the same, but a level found in the XML stays a string;
 *  - `WithFootnotes`: no lists, and the bold path uses the plain run texts;
 *  - `Basic`: no lists, no note table, the plain stripped paragraph text.
 */
module Converter {
  import opened Wrappers
  import opened OrgStrings
  import opened Seqs
  import opened Docx
  import opened Notes
  import opened Lists
  import opened ListDetection
  import opened ListNumbering
  import opened BoldSegments

  datatype Variant = Complete | CompleteNew | WithFootnotes | Basic

  /** Whether the variant has the list branch and the two stacks. */
  predicate HasLists(v: Variant) {
    v.Complete? || v.CompleteNew?
  }

  /** How the variant's list detection reads a level from the XML. */
  function ReadOf(v: Variant): LevelRead {
    if v.Complete? then IntLevels else StringLevels
  }

  // ---------------------------------------------------------------- one paragraph

  /** The text a paragraph is judged by: the spliced text, or `paragraph.text` for `Basic`. */
  function WorkingText(v: Variant, notes: seq<Note>, p: Paragraph): string {
    if v.Basic? then ParagraphText(p.runs) else Interleaved(p.runs, notes)
  }

  /** The pieces of the bold path: with the last token of each run for the list variants, bare otherwise. */
  function BoldPieces(v: Variant, notes: seq<Note>, p: Paragraph): seq<Piece> {
    if HasLists(v) then TokenPieces(p.runs, notes) else PlainPieces(p.runs)
  }

  /** The bold path's lines: the heading lines of the bold parts, then the lines of the regular parts. */
  function BoldLines(ps: seq<Piece>): seq<string> {
    var gs := Groups(ps);
    HeadingLines(BoldParts(gs)) + TextLines(RegularParts(gs))
  }

  /** The lines of a non-blank paragraph that is not a list item: centered, bold or plain. */
  function ProseLines(v: Variant, notes: seq<Note>, p: Paragraph): seq<string> {
    var text := WorkingText(v, notes, p);
    if IsCentered(p) then ["* " + Strip(text)]
    else if HasBoldText(p) then BoldLines(BoldPieces(v, notes, p))
    else [Strip(text)]
  }

  /** The line of a list item numbered `n`: its prefix, then its text without the marker. */
  function ListLine(kind: ListKind, level: int, n: int, text: string): string {
    ListPrefix(KindName(kind), level, Some(n)) + CleanListText(StandardCleaner, text, kind)
  }

  /**
   * `process_paragraph`: the lines of one paragraph and the list state after it. A blank
   * text gives nothing and changes nothing; a list item runs the stack step (a level kept
   * as a string raises `TypeError` at `level + 1`); anything else clears the stacks of the
   * list variants and is emitted as prose.
   */
  function ParagraphStep(v: Variant, st: ListState, notes: seq<Note>, p: Paragraph)
    : (r: Result<(seq<string>, ListState), string>)
    requires Balanced(st)
    ensures r.Ok? ==> Balanced(r.value.1)
    ensures r.Ok? && !HasLists(v) ==> r.value.1 == st
  {
    var text := WorkingText(v, notes, p);
    if IsBlank(text) then Ok(([], st))
    else
      var d := if HasLists(v) then DetectList(ReadOf(v), p) else NotList;
      match d
      case ListItem(kind, IntLevel(level)) =>
        (match ListStep(st, kind, level)
         case Err(e) => Err(e)
         case Ok((st', n)) => Ok(([ListLine(kind, level, n, text)], st')))
      case ListItem(_, StrLevel(_)) => Err("TypeError")
      case NotList => Ok((ProseLines(v, notes, p), if HasLists(v) then ListState([], []) else st))
  }

  /** A paragraph whose text is blank emits nothing and leaves the list state as it was. */
  lemma BlankParagraphSkipped(v: Variant, st: ListState, notes: seq<Note>, p: Paragraph)
    requires Balanced(st) && IsBlank(WorkingText(v, notes, p))
    ensures ParagraphStep(v, st, notes, p) == Ok(([], st))
  {
  }

  /** After a list item at level `L` both stacks hold exactly `L + 1` entries. */
  lemma ListItemHeights(v: Variant, st: ListState, notes: seq<Note>, p: Paragraph, kind: ListKind, level: int)
    requires Balanced(st) && HasLists(v) && !IsBlank(WorkingText(v, notes, p))
    requires DetectList(ReadOf(v), p) == ListItem(kind, IntLevel(level))
    requires ParagraphStep(v, st, notes, p).Ok?
    ensures var st' := ParagraphStep(v, st, notes, p).value.1;
      |st'.depth| == level + 1 && |st'.counters| == level + 1
  {
  }

  /** A non-blank paragraph that is not a list item empties both stacks. */
  lemma ProseClearsStacks(v: Variant, st: ListState, notes: seq<Note>, p: Paragraph)
    requires Balanced(st) && HasLists(v) && !IsBlank(WorkingText(v, notes, p))
    requires DetectList(ReadOf(v), p) == NotList
    ensures ParagraphStep(v, st, notes, p) == Ok((ProseLines(v, notes, p), ListState([], [])))
  {
  }

  /**
   * A centered prose paragraph is one `* ` line of the stripped spliced text: its runs'
   * texts, each followed by its `[fn:N]` tokens.
   */
  lemma CenteredKeepsTokens(v: Variant, notes: seq<Note>, p: Paragraph)
    requires !v.Basic? && IsCentered(p)
    ensures ProseLines(v, notes, p) == ["* " + Strip(SplicedText(p.runs, notes))]
  {
    SplicedTextInterleaves(p.runs, notes);
  }

  /**
   * In a bold prose paragraph every `** ` line comes before every regular line, blank parts
   * give no line, and the bold and regular parts number within one of each other.
   */
  lemma BoldLinesOrder(ps: seq<Piece>)
    ensures var gs := Groups(ps); var lines := BoldLines(ps);
      var h := |HeadingLines(BoldParts(gs))|;
      h <= |lines|
      && (forall k :: 0 <= k < h ==> StartsWith(lines[k], "** "))
      && (forall k :: h <= k < |lines| ==> !IsBlank(lines[k]) && Strip(lines[k]) == lines[k])
      && -1 <= |BoldParts(gs)| - |RegularParts(gs)| <= 1
  {
    var gs := Groups(ps);
    HeadingsThenText(BoldParts(gs), RegularParts(gs));
    PortionCounts(ps);
  }

  lemma HeadingsThenText(boldParts: seq<string>, regularParts: seq<string>)
    ensures var hs, ts := HeadingLines(boldParts), TextLines(regularParts);
      (forall k :: 0 <= k < |hs| ==> StartsWith((hs + ts)[k], "** "))
      && (forall k :: |hs| <= k < |hs + ts| ==> !IsBlank((hs + ts)[k]) && Strip((hs + ts)[k]) == (hs + ts)[k])
  {
    var hs, ts := HeadingLines(boldParts), TextLines(regularParts);
    forall k | 0 <= k < |hs|
      ensures StartsWith((hs + ts)[k], "** ")
    {
      assert (hs + ts)[k] == hs[k];
    }
    forall k | |hs| <= k < |hs + ts|
      ensures !IsBlank((hs + ts)[k]) && Strip((hs + ts)[k]) == (hs + ts)[k]
    {
      assert (hs + ts)[k] == ts[k - |hs|];
    }
  }

  /**
   * The with-footnotes variant builds its bold lines from the bare run texts: the lines
   * are those of a paragraph with no note table at all, so its tokens are lost.
   */
  lemma BoldPathDropsTokens(notes: seq<Note>, p: Paragraph)
    requires !IsCentered(p) && HasBoldText(p)
    ensures ProseLines(WithFootnotes, notes, p) == ProseLines(WithFootnotes, [], p)
    ensures ProseLines(WithFootnotes, notes, p) == BoldLines(PlainPieces(p.runs))
  {
  }

  /**
   * A regular run followed by a bold run carrying one footnote reference that resolves to
   * row `k`: the `** ` line of the bold text comes first, and the regular text follows,
   * stripped. The list variants keep the token on the bold line; the with-footnotes
   * variant loses it.
   */
  lemma RegularThenBoldParagraph(notes: seq<Note>, a: string, b: string, ref: NoteRef, k: nat)
    requires !IsBlank(a) && !IsBlank(b)
    requires ref.kind == FootnoteRef && ref.id != ""
    requires k < |notes| && notes[k].id == ref.id && forall j :: 0 <= j < k ==> notes[j].id != ref.id
    ensures var p := Paragraph([Run(a, false, []), Run(b, true, [ref])], None, None, None);
      ProseLines(Complete, notes, p) == ["** " + Strip(b + Token(k + 1)), Strip(a)]
      && ProseLines(WithFootnotes, notes, p) == ["** " + Strip(b), Strip(a)]
  {
    var p := Paragraph([Run(a, false, []), Run(b, true, [ref])], None, None, None);
    var bt := b + Token(k + 1);
    TwoRunPieces(notes, a, b, ref, k);
    assert !IsBlank(bt) by {
      var i :| 0 <= i < |b| && !IsSpace(b[i]);
      assert bt[i] == b[i];
    }
    RegularThenBold(a, bt);
    RegularThenBold(a, b);
    BoldProse(Complete, notes, p);
    BoldProse(WithFootnotes, notes, p);
  }

  /** The pieces of the two runs, with and without the resolved token. */
  lemma TwoRunPieces(notes: seq<Note>, a: string, b: string, ref: NoteRef, k: nat)
    requires ref.kind == FootnoteRef && ref.id != ""
    requires k < |notes| && notes[k].id == ref.id && forall j :: 0 <= j < k ==> notes[j].id != ref.id
    ensures var runs := [Run(a, false, []), Run(b, true, [ref])];
      TokenPieces(runs, notes) == [Piece(false, a), Piece(true, b + Token(k + 1))]
      && PlainPieces(runs) == [Piece(false, a), Piece(true, b)]
  {
    var runs := [Run(a, false, []), Run(b, true, [ref])];
    RefTokenResolves(ref, notes);
    var n: nat :| RefToken(ref, notes) == [Token(n)] && 1 <= n <= |notes| && notes[n - 1].id == ref.id
      && forall j :: 0 <= j < n - 1 ==> notes[j].id != ref.id;
    assert n == k + 1;
    assert RefTokens(runs[0].refs, notes) == [];
    assert RefTokens(runs[1].refs, notes) == [Token(k + 1)] by {
      assert [ref][..0] == [];
    }
    TokenPieceOfRun(runs, notes, 0);
    TokenPieceOfRun(runs, notes, 1);
    var tp := TokenPieces(runs, notes);
    assert tp[0] == Piece(false, a + "");
    assert a + "" == a;
    assert tp[1] == Piece(true, b + Token(k + 1));
    PairOf(tp);
    PairOf(PlainPieces(runs));
  }

  /** A paragraph that is not centered and has a bold run takes the bold path. */
  lemma BoldProse(v: Variant, notes: seq<Note>, p: Paragraph)
    requires !IsCentered(p) && exists i :: 0 <= i < |p.runs| && p.runs[i].bold
    ensures ProseLines(v, notes, p) == BoldLines(BoldPieces(v, notes, p))
  {
  }

  /** A two-element sequence is the display of its elements. */
  lemma PairOf<T>(s: seq<T>)
    requires |s| == 2
    ensures s == [s[0], s[1]]
  {
  }

  /** The basic converter reads a paragraph as the with-footnotes one does with an empty note table. */
  lemma BasicIsWithFootnotesWithoutNotes(st: ListState, notes: seq<Note>, p: Paragraph)
    requires Balanced(st)
    ensures ParagraphStep(Basic, st, notes, p) == ParagraphStep(WithFootnotes, st, [], p)
  {
    SpliceWithoutNotes(p.runs);
    SplicedTextInterleaves(p.runs, []);
    assert WorkingText(Basic, notes, p) == WorkingText(WithFootnotes, [], p);
  }

  /**
   * In the variant that keeps levels as strings, a list style whose XML has a `w:ilvl`
   * makes `level + 1` raise: the paragraph, and with it the conversion, fails.
   */
  lemma StringLevelFails(st: ListState, notes: seq<Note>, p: Paragraph, lv: string)
    requires Balanced(st) && !IsBlank(WorkingText(CompleteNew, notes, p))
    requires p.style.Some? && p.style.value.name.Some? && p.style.value.ilvl == Some(lv)
    requires var name := Lower(p.style.value.name.value);
      Contains(name, "list") && (Contains(name, "bullet") || Contains(name, "unordered"))
    ensures ParagraphStep(CompleteNew, st, notes, p) == Err("TypeError")
  {
    StringLevelsSkipSuffixRule(p, lv);
  }

  // ---------------------------------------------------------------- the whole document

  /** Prefixing lines to a result; an error stays the error. */
  function Prepend(c: seq<string>, r: Result<(seq<string>, ListState), string>)
    : Result<(seq<string>, ListState), string>
  {
    match r
    case Err(e) => Err(e)
    case Ok((ls, st)) => Ok((c + ls, st))
  }

  /** The paragraph loop of `convert_docx_to_org`: the lines of all paragraphs in order, the first failure failing all. */
  function RunParagraphs(v: Variant, st: ListState, notes: seq<Note>, ps: seq<Paragraph>)
    : Result<(seq<string>, ListState), string>
    requires Balanced(st)
    decreases |ps|
  {
    if ps == [] then Ok(([], st))
    else
      match ParagraphStep(v, st, notes, ps[0])
      case Err(e) => Err(e)
      case Ok((ls, st')) => Prepend(ls, RunParagraphs(v, st', notes, ps[1..]))
  }

  /** `[fn:i] text`. */
  function NoteLine(i: nat, n: Note): string {
    "[fn:" + NatToString(i) + "] " + n.text
  }

  /** The trailer's note lines, numbered from 1 in table order. */
  function NoteLines(notes: seq<Note>): (lines: seq<string>)
    ensures |lines| == |notes|
  {
    if notes == [] then []
    else NoteLines(notes[..|notes| - 1]) + [NoteLine(|notes|, notes[|notes| - 1])]
  }

  /** The `i`-th trailer line (from 0) is the row's text under the number `i + 1`. */
  lemma {:induction false} NoteLinesAt(notes: seq<Note>, i: nat)
    requires i < |notes|
    ensures NoteLines(notes)[i] == "[fn:" + NatToString(i + 1) + "] " + notes[i].text
  {
    if i < |notes| - 1 {
      NoteLinesAt(notes[..|notes| - 1], i);
    }
  }

  /**
   * The lines after the paragraphs: nothing for an empty table; otherwise an empty line and
   * `* Footnotes` (`\n* Footnotes` in `Basic`, whose table is never filled), then the rows.
   */
  function Trailer(v: Variant, notes: seq<Note>): seq<string> {
    if notes == [] then []
    else (if v.Basic? then ["\n* Footnotes"] else ["", "* Footnotes"]) + NoteLines(notes)
  }

  /**
   * The trailer is there exactly when the table has rows; in the variants with a table it is
   * an empty line, `* Footnotes`, then row `i` (from 0) as `[fn:i+1] text`, in table order.
   */
  lemma TrailerShape(v: Variant, notes: seq<Note>)
    ensures Trailer(v, notes) == [] <==> notes == []
    ensures !v.Basic? && notes != [] ==>
      var t := Trailer(v, notes);
      |t| == |notes| + 2 && t[0] == "" && t[1] == "* Footnotes"
      && forall i :: 0 <= i < |notes| ==> t[i + 2] == "[fn:" + NatToString(i + 1) + "] " + notes[i].text
  {
    if !v.Basic? && notes != [] {
      forall i | 0 <= i < |notes|
        ensures Trailer(v, notes)[i + 2] == "[fn:" + NatToString(i + 1) + "] " + notes[i].text
      {
        NoteLinesAt(notes, i);
      }
    }
  }

  /** The note table a fresh conversion builds: the extracted rows, and nothing in `Basic`. */
  function TableOf(v: Variant, blocks: seq<seq<Option<seq<NoteElement>>>>): seq<Note> {
    if v.Basic? then [] else ExtractNotes(blocks)
  }

  /**
   * `convert_docx_to_org`: the text written, lines joined with a blank line between them,
   * or `None` when an exception makes it return `False`.
   */
  function ConvertOutput(v: Variant, blocks: seq<seq<Option<seq<NoteElement>>>>, ps: seq<Paragraph>)
    : Option<string>
  {
    var notes := TableOf(v, blocks);
    match RunParagraphs(v, ListState([], []), notes, ps)
    case Err(_) => None
    case Ok((lines, _)) => Some(Join(lines + Trailer(v, notes), "\n\n"))
  }

  /** The basic converter's extraction does nothing, so its output never has a trailer. */
  lemma BasicHasNoTrailer(blocks: seq<seq<Option<seq<NoteElement>>>>, ps: seq<Paragraph>)
    ensures ConvertOutput(Basic, blocks, ps) ==
      match RunParagraphs(Basic, ListState([], []), [], ps)
      case Err(_) => None
      case Ok((lines, _)) => Some(Join(lines, "\n\n"))
  {
    assert TableOf(Basic, blocks) == [];
    assert Trailer(Basic, []) == [];
    var r := RunParagraphs(Basic, ListState([], []), [], ps);
    if r.Ok? {
      assert r.value.0 + [] == r.value.0;
    }
  }

  lemma PrependNothing(r: Result<(seq<string>, ListState), string>)
    ensures Prepend([], r) == r
  {
    if r.Ok? {
      assert [] + r.value.0 == r.value.0;
    }
  }

  lemma PrependTwice(a: seq<string>, b: seq<string>, r: Result<(seq<string>, ListState), string>)
    ensures Prepend(a, Prepend(b, r)) == Prepend(a + b, r)
  {
    if r.Ok? {
      assert a + (b + r.value.0) == (a + b) + r.value.0;
    }
  }

  lemma StepFails(v: Variant, st: ListState, notes: seq<Note>, ps: seq<Paragraph>, i: nat, content: seq<string>)
    requires Balanced(st) && i < |ps| && ParagraphStep(v, st, notes, ps[i]).Err?
    ensures Prepend(content, RunParagraphs(v, st, notes, ps[i..])).Err?
  {
    assert ps[i..][0] == ps[i];
  }

  lemma StepSucceeds(v: Variant, st: ListState, notes: seq<Note>, ps: seq<Paragraph>, i: nat,
                     content: seq<string>, lines: seq<string>, st': ListState)
    requires Balanced(st) && Balanced(st') && i < |ps|
    requires ParagraphStep(v, st, notes, ps[i]) == Ok((lines, st'))
    ensures Prepend(content, RunParagraphs(v, st, notes, ps[i..]))
      == Prepend(content + lines, RunParagraphs(v, st', notes, ps[i + 1..]))
  {
    assert ps[i..][0] == ps[i];
    assert ps[i..][1..] == ps[i + 1..];
    PrependTwice(content, lines, RunParagraphs(v, st', notes, ps[i + 1..]));
  }

  /** The trailer loop of `convert_docx_to_org`. */
  method TrailerLines(v: Variant, notes: seq<Note>) returns (lines: seq<string>)
    ensures lines == Trailer(v, notes)
  {
    lines := [];
    if notes != [] {
      if v.Basic? {
        lines := ["\n* Footnotes"];
      } else {
        lines := ["", "* Footnotes"];
      }
      ghost var head := lines;
      var k := 0;
      while k < |notes|
        invariant 0 <= k <= |notes|
        invariant lines == head + NoteLines(notes[..k])
      {
        assert notes[..k + 1][..k] == notes[..k];
        lines := lines + [NoteLine(k + 1, notes[k])];
        k := k + 1;
      }
      assert notes[..k] == notes;
    }
  }

  /** `for run in paragraph.runs: if run.bold: return True`. */
  method HasBoldRun(runs: seq<Run>) returns (b: bool)
    ensures b <==> exists i :: 0 <= i < |runs| && runs[i].bold
  {
    var i := 0;
    while i < |runs|
      invariant 0 <= i <= |runs|
      invariant forall j :: 0 <= j < i ==> !runs[j].bold
    {
      if runs[i].bold {
        return true;
      }
      i := i + 1;
    }
    return false;
  }

  /** The two output loops of the bold path. */
  method EmitPortions(boldParts: seq<string>, regularParts: seq<string>) returns (lines: seq<string>)
    ensures lines == HeadingLines(boldParts) + TextLines(regularParts)
  {
    var heads := EmitHeadings(boldParts);
    var texts := EmitTexts(regularParts);
    lines := heads + texts;
  }

  /** `lines.append(f"** {bold_text.strip()}")` for each non-blank bold part. */
  method EmitHeadings(boldParts: seq<string>) returns (lines: seq<string>)
    ensures lines == HeadingLines(boldParts)
  {
    lines := [];
    var i := 0;
    while i < |boldParts|
      invariant 0 <= i <= |boldParts|
      invariant lines == HeadingLines(boldParts[..i])
    {
      assert boldParts[..i + 1][..i] == boldParts[..i];
      var s := Strip(boldParts[i]);
      if s != [] {
        lines := lines + ["** " + s];
      }
      i := i + 1;
    }
    assert boldParts[..i] == boldParts;
  }

  /** `lines.append(regular_text.strip())` for each non-blank regular part. */
  method EmitTexts(regularParts: seq<string>) returns (lines: seq<string>)
    ensures lines == TextLines(regularParts)
  {
    lines := [];
    var i := 0;
    while i < |regularParts|
      invariant 0 <= i <= |regularParts|
      invariant lines == TextLines(regularParts[..i])
    {
      assert regularParts[..i + 1][..i] == regularParts[..i];
      var s := Strip(regularParts[i]);
      if s != [] {
        lines := lines + [s];
      }
      i := i + 1;
    }
    assert regularParts[..i] == regularParts;
  }

  class DocxToOrgConverter {
    const variant: Variant
    /** `self.footnotes`: the note table, rows in extraction order. */
    var footnotes: seq<Note>
    /** `self.list_depth_stack`: the list type met at each open depth. */
    var listDepthStack: seq<ListKind>
    /** `self.list_item_counters`: the next number at each open depth. */
    var listItemCounters: seq<int>

    /**
     * The stacks have the same height; the variants without lists never open one; the
     * basic converter's table stays empty.
     */
    predicate Valid()
      reads this
    {
      |listDepthStack| == |listItemCounters|
      && (!HasLists(variant) ==> listDepthStack == [] && listItemCounters == [])
      && (variant.Basic? ==> footnotes == [])
    }

    function State(): ListState
      reads this
    {
      ListState(listDepthStack, listItemCounters)
    }

    constructor(v: Variant)
      ensures variant == v && Valid()
      ensures footnotes == [] && listDepthStack == [] && listItemCounters == []
    {
      variant := v;
      footnotes := [];
      listDepthStack := [];
      listItemCounters := [];
    }

    /**
     * `extract_footnotes_from_xml`: every block in turn, each parsed part's kept elements
     * appended; a part that does not parse abandons the rest of its block.
     */
    method ExtractFootnotesFromXml(blocks: seq<seq<Option<seq<NoteElement>>>>)
      requires Valid() && !variant.Basic?
      modifies this
      ensures Valid()
      ensures footnotes == old(footnotes) + ExtractNotes(blocks)
      ensures listDepthStack == old(listDepthStack) && listItemCounters == old(listItemCounters)
    {
      var b := 0;
      while b < |blocks|
        invariant 0 <= b <= |blocks|
        invariant footnotes == old(footnotes) + ExtractNotes(blocks[..b])
        invariant listDepthStack == old(listDepthStack) && listItemCounters == old(listItemCounters)
      {
        AppendBlockNotes(blocks[b]);
        assert blocks[..b + 1][..b] == blocks[..b];
        b := b + 1;
      }
      assert blocks[..b] == blocks;
    }

    /** One `try` block of the extraction: its parts in order until one does not parse. */
    method AppendBlockNotes(block: seq<Option<seq<NoteElement>>>)
      modifies this
      ensures footnotes == old(footnotes) + BlockNotes(block)
      ensures listDepthStack == old(listDepthStack) && listItemCounters == old(listItemCounters)
    {
      var k := 0;
      while k < |block| && block[k].Some?
        invariant 0 <= k <= |block|
        invariant forall j :: 0 <= j < k ==> block[j].Some?
        invariant footnotes == old(footnotes) + BlockNotes(block[..k])
        invariant listDepthStack == old(listDepthStack) && listItemCounters == old(listItemCounters)
      {
        AppendPartNotes(block[k].value);
        BlockNotesSnoc(block, k);
        k := k + 1;
      }
      if k < |block| {
        BlockStopsAtFailure(block, k);
      } else {
        assert block[..k] == block;
      }
    }

    /** The element loop over one parsed part: each kept element appended as a row. */
    method AppendPartNotes(es: seq<NoteElement>)
      modifies this
      ensures footnotes == old(footnotes) + PartNotes(es)
      ensures listDepthStack == old(listDepthStack) && listItemCounters == old(listItemCounters)
    {
      var e := 0;
      while e < |es|
        invariant 0 <= e <= |es|
        invariant footnotes == old(footnotes) + PartNotes(es[..e])
        invariant listDepthStack == old(listDepthStack) && listItemCounters == old(listItemCounters)
      {
        assert es[..e + 1][..e] == es[..e];
        if IsKept(es[e]) {
          footnotes := footnotes + [NoteOf(es[e])];
        }
        e := e + 1;
      }
      assert es[..e] == es;
    }

    /**
     * The list branch's stack work: pop both stacks down to `level + 1` entries, push the
     * type and 1 up to it, then number the item. Returns the item number.
     */
    method StepList(kind: ListKind, level: int) returns (r: Result<int, string>)
      requires Valid() && HasLists(variant)
      modifies this
      ensures Valid() && footnotes == old(footnotes)
      ensures var spec := ListStep(old(State()), kind, level);
        (spec.Err? ==> r == Err(spec.error))
        && (spec.Ok? ==> r == Ok(spec.value.1) && State() == spec.value.0)
    {
      ghost var d0, c0 := listDepthStack, listItemCounters;
      while |listDepthStack| > level + 1
        invariant |listDepthStack| == |listItemCounters| && footnotes == old(footnotes)
        invariant listDepthStack == d0[..|listDepthStack|] && listItemCounters == c0[..|listItemCounters|]
        invariant |listDepthStack| == |d0| || |listDepthStack| >= level + 1
        decreases |listDepthStack|
      {
        if listDepthStack == [] {
          return Err("IndexError");
        }
        listDepthStack := listDepthStack[..|listDepthStack| - 1];
        listItemCounters := listItemCounters[..|listItemCounters| - 1];
      }
      while |listDepthStack| < level + 1
        invariant |listDepthStack| == |listItemCounters| <= level + 1 && footnotes == old(footnotes)
        invariant listDepthStack == Resize(d0, |listDepthStack|, kind)
        invariant listItemCounters == Resize(c0, |listItemCounters|, 1)
        invariant |listDepthStack| == level + 1 || |d0| <= |listDepthStack|
        decreases level + 1 - |listDepthStack|
      {
        listDepthStack := listDepthStack + [kind];
        listItemCounters := listItemCounters + [1];
      }
      if kind.Ordered? {
        if level < 0 {
          // `counters[-1]` on the emptied list
          return Err("IndexError");
        }
        var itemNumber := listItemCounters[level];
        listItemCounters := listItemCounters[level := itemNumber + 1];
        return Ok(itemNumber);
      } else {
        if level < |listItemCounters| {
          if level < 0 {
            // `counters[-1] = 1` on the emptied list
            return Err("IndexError");
          }
          listItemCounters := listItemCounters[level := 1];
        }
        return Ok(1);
      }
    }

    /** `process_paragraph`: the lines of one paragraph, the list state updated in place. */
    method ProcessParagraph(p: Paragraph) returns (r: Result<seq<string>, string>)
      requires Valid()
      modifies this
      ensures Valid() && footnotes == old(footnotes)
      ensures var spec := ParagraphStep(variant, old(State()), old(footnotes), p);
        (spec.Err? ==> r == Err(spec.error))
        && (spec.Ok? ==> r == Ok(spec.value.0) && State() == spec.value.1)
    {
      var text: string;
      if variant.Basic? {
        text := ParagraphText(p.runs);
      } else {
        text := ProcessTextWithFootnotes(p.runs, footnotes);
      }
      if Strip(text) == [] {
        return Ok([]);
      }
      var d := NotList;
      if HasLists(variant) {
        d := DetectList(ReadOf(variant), p);
      }
      if d.ListItem? {
        var cleaned := CleanListTextLoop(StandardCleaner, text, d.kind);
        if d.level.StrLevel? {
          return Err("TypeError");
        }
        var n := StepList(d.kind, d.level.n);
        if n.Err? {
          return Err(n.error);
        }
        return Ok([ListPrefix(KindName(d.kind), d.level.n, Some(n.value)) + cleaned]);
      }
      if HasLists(variant) {
        listDepthStack := [];
        listItemCounters := [];
      }
      var lines := ProseOf(p, text);
      return Ok(lines);
    }

    /** The centered, bold and plain branches of `process_paragraph`. */
    method ProseOf(p: Paragraph, text: string) returns (lines: seq<string>)
      requires text == WorkingText(variant, footnotes, p)
      ensures lines == ProseLines(variant, footnotes, p)
    {
      if IsCentered(p) {
        return ["* " + Strip(text)];
      }
      var bold := HasBoldRun(p.runs);
      if bold {
        var boldParts, regularParts;
        if HasLists(variant) {
          boldParts, regularParts := ExtractBoldPortionsWithFootnotes(p.runs, footnotes);
        } else {
          boldParts, regularParts := ExtractBoldPortions(PlainPieces(p.runs));
        }
        lines := EmitPortions(boldParts, regularParts);
        return;
      }
      return [Strip(text)];
    }

    /**
     * `convert_docx_to_org`: reset the table and the stacks, extract the notes, convert the
     * paragraphs in order, add the trailer and join. A failing paragraph makes it fail.
     */
    method Convert(blocks: seq<seq<Option<seq<NoteElement>>>>, paragraphs: seq<Paragraph>)
      returns (output: Option<string>)
      requires Valid()
      modifies this
      ensures Valid()
      ensures output == ConvertOutput(variant, blocks, paragraphs)
      ensures footnotes == TableOf(variant, blocks)
    {
      if !variant.Basic? {
        footnotes := [];
        if HasLists(variant) {
          listDepthStack := [];
          listItemCounters := [];
        }
        ExtractFootnotesFromXml(blocks);
      }
      assert State() == ListState([], []) && footnotes == TableOf(variant, blocks);
      ghost var spec := RunParagraphs(variant, State(), footnotes, paragraphs);
      var r := ProcessParagraphs(paragraphs);
      if r.Err? {
        assert spec.Err?;
        return None;
      }
      var trailer := TrailerLines(variant, footnotes);
      return Some(Join(r.value + trailer, "\n\n"));
    }

    /** The paragraph loop: each paragraph's lines in turn; the first exception ends it. */
    method ProcessParagraphs(paragraphs: seq<Paragraph>) returns (r: Result<seq<string>, string>)
      requires Valid()
      modifies this
      ensures Valid() && footnotes == old(footnotes)
      ensures var spec := RunParagraphs(variant, old(State()), old(footnotes), paragraphs);
        r.Ok? <==> spec.Ok?
      ensures var spec := RunParagraphs(variant, old(State()), old(footnotes), paragraphs);
        r.Ok? ==> r.value == spec.value.0
    {
      ghost var st0 := State();
      var content: seq<string> := [];
      var i := 0;
      assert paragraphs[0..] == paragraphs;
      PrependNothing(RunParagraphs(variant, st0, footnotes, paragraphs));
      while i < |paragraphs|
        invariant 0 <= i <= |paragraphs|
        invariant Valid() && footnotes == old(footnotes)
        invariant RunParagraphs(variant, st0, footnotes, paragraphs)
          == Prepend(content, RunParagraphs(variant, State(), footnotes, paragraphs[i..]))
      {
        ghost var st := State();
        var lines := ProcessParagraph(paragraphs[i]);
        if lines.Err? {
          StepFails(variant, st, footnotes, paragraphs, i, content);
          return Err(lines.error);
        }
        StepSucceeds(variant, st, footnotes, paragraphs, i, content, lines.value, State());
        content := content + lines.value;
        i := i + 1;
      }
      assert paragraphs[i..] == [];
      assert content + [] == content;
      return Ok(content);
    }
  }
}
