/**
 * The parts of a Word document the converters look at, as plain values. Reading the
 * container and its XML is python-docx's and ElementTree's work; what they deliver is
 * described here.
 */
module Docx {
  import opened Wrappers

  /** Which reference element a run holds: `w:footnoteReference` or `w:endnoteReference`. */
  datatype NoteRefKind = FootnoteRef | EndnoteRef

  /** A note reference inside a run; `id` is `""` when the attribute is missing. */
  datatype NoteRef = NoteRef(kind: NoteRefKind, id: string)

  /** A run: its text, whether `run.bold` is set, and its note references in document order. */
  datatype Run = Run(text: string, bold: bool, refs: seq<NoteRef>)

  /**
   * The paragraph style: its name and its id (`None` when the style element lacks them, so
   * that `.lower()` on them raises), and the `val` of the first `w:ilvl` element in the
   * style's XML (`Some("0")` when that element has no `val`; `None` when there is none).
   */
  datatype Style = Style(name: Option<string>, styleId: Option<string>, ilvl: Option<string>)

  /** A `w:numPr` record: the `val` of its `w:ilvl` (`"0"` when missing) and whether a `w:numId` is present. */
  datatype NumPr = NumPr(ilvl: Option<string>, hasNumId: bool)

  datatype Alignment = AlignLeft | AlignCenter | AlignRight | AlignJustify | AlignOther

  /** A paragraph: runs, alignment (`None` when inherited), style and numbering record. */
  datatype Paragraph = Paragraph(
    runs: seq<Run>,
    alignment: Option<Alignment>,
    style: Option<Style>,
    numPr: Option<NumPr>)

  /** A `w:footnote` or `w:endnote` element: its id (`""` when missing) and its `w:t` texts. */
  datatype NoteElement = NoteElement(id: string, texts: seq<string>)

  /** One row of the converter's note table. */
  datatype Note = Note(id: string, text: string)

  /** `paragraph.text`: the runs' texts one after another. */
  function ParagraphText(runs: seq<Run>): string {
    if runs == [] then [] else ParagraphText(runs[..|runs| - 1]) + runs[|runs| - 1].text
  }

  /** `is_centered`: the paragraph's own alignment is CENTER. */
  predicate IsCentered(p: Paragraph) {
    p.alignment == Some(AlignCenter)
  }

  /** `has_bold_text`: some run is bold. */
  predicate HasBoldText(p: Paragraph) {
    exists i :: 0 <= i < |p.runs| && p.runs[i].bold
  }
}
