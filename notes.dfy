/**
 * Footnotes and endnotes: building the note table from the note parts, resolving each
 * `w:footnoteReference` of a run to a `[fn:N]` token, and splicing the tokens into the
 * paragraph text after their run's text.
 */
module Notes {
  import opened Wrappers
  import opened OrgStrings
  import opened Seqs
  import opened Docx

  // ---------------------------------------------------------------- the note table

  /** `_extract_text_from_footnote_element`: the element's `w:t` texts joined (empty texts add nothing). */
  function ElementText(e: NoteElement): string {
    Flatten(e.texts)
  }

  /** The extraction rule: an id that is present and not `"0"`, and a text that is not blank. */
  predicate IsKept(e: NoteElement) {
    e.id != "" && e.id != "0" && !IsBlank(ElementText(e))
  }

  /** The row a kept element becomes: its id and its stripped text. */
  function NoteOf(e: NoteElement): Note {
    Note(e.id, Strip(ElementText(e)))
  }

  /** The rows one parsed part contributes, in element order. */
  function PartNotes(es: seq<NoteElement>): seq<Note> {
    if es == [] then []
    else PartNotes(es[..|es| - 1]) + (if IsKept(es[|es| - 1]) then [NoteOf(es[|es| - 1])] else [])
  }

  /**
   * The rows one `try` block contributes: its parts in order, up to the first part that does
   * not parse (`None`); the exception that part raises abandons the rest of the block.
   */
  function BlockNotes(block: seq<Option<seq<NoteElement>>>): seq<Note> {
    if block == [] || block[0].None? then []
    else PartNotes(block[0].value) + BlockNotes(block[1..])
  }

  /** The whole table: every block's rows, blocks in the order the extraction tries them. */
  function ExtractNotes(blocks: seq<seq<Option<seq<NoteElement>>>>): seq<Note> {
    if blocks == [] then []
    else ExtractNotes(blocks[..|blocks| - 1]) + BlockNotes(blocks[|blocks| - 1])
  }

  /** A row is in a part's table exactly when it comes from a kept element of that part. */
  lemma {:induction false} PartNotesExact(es: seq<NoteElement>, n: Note)
    ensures n in PartNotes(es) <==> exists e :: e in es && IsKept(e) && n == NoteOf(e)
  {
    if es != [] {
      var init, e0 := es[..|es| - 1], es[|es| - 1];
      PartNotesExact(init, n);
      assert es == init + [e0];
      assert PartNotes(es) == PartNotes(init) + (if IsKept(e0) then [NoteOf(e0)] else []);
      if n in PartNotes(es) {
        if n in PartNotes(init) {
          var e :| e in init && IsKept(e) && n == NoteOf(e);
          assert e in es;
        } else {
          assert e0 in es && IsKept(e0) && n == NoteOf(e0);
        }
      } else {
        forall e | e in es && IsKept(e) ensures n != NoteOf(e) {
          if e !in init {
            assert e == e0;
          }
        }
      }
    }
  }

  /** Every row of the table has an id other than `""` and `"0"` and a non-empty, stripped text. */
  lemma {:induction false} ExtractedNotesWellFormed(blocks: seq<seq<Option<seq<NoteElement>>>>)
    ensures forall n :: n in ExtractNotes(blocks) ==>
      n.id != "" && n.id != "0" && n.text != [] && Strip(n.text) == n.text
  {
    forall n | n in ExtractNotes(blocks)
      ensures n.id != "" && n.id != "0" && n.text != [] && Strip(n.text) == n.text
    {
      var es := ExtractedFromSomePart(blocks, n);
      PartNotesExact(es, n);
      var e :| e in es && IsKept(e) && n == NoteOf(e);
      StripIdempotent(ElementText(e));
    }
  }

  lemma {:induction false} ExtractedFromSomePart(blocks: seq<seq<Option<seq<NoteElement>>>>, n: Note)
    returns (es: seq<NoteElement>)
    requires n in ExtractNotes(blocks)
    ensures n in PartNotes(es)
  {
    var last := blocks[|blocks| - 1];
    if n in ExtractNotes(blocks[..|blocks| - 1]) {
      es := ExtractedFromSomePart(blocks[..|blocks| - 1], n);
    } else {
      es := ExtractedFromSomeBlockPart(last, n);
    }
  }

  lemma {:induction false} ExtractedFromSomeBlockPart(block: seq<Option<seq<NoteElement>>>, n: Note)
    returns (es: seq<NoteElement>)
    requires n in BlockNotes(block)
    ensures n in PartNotes(es)
  {
    if n in PartNotes(block[0].value) {
      es := block[0].value;
    } else {
      es := ExtractedFromSomeBlockPart(block[1..], n);
    }
  }

  /** Splitting the blocks in two splits the table in two: blocks' rows keep the blocks' order. */
  lemma {:induction false} ExtractNotesAppend(a: seq<seq<Option<seq<NoteElement>>>>, b: seq<seq<Option<seq<NoteElement>>>>)
    ensures ExtractNotes(a + b) == ExtractNotes(a) + ExtractNotes(b)
    decreases |b|
  {
    if b == [] {
      assert a + b == a;
    } else {
      assert (a + b)[..|a + b| - 1] == a + b[..|b| - 1];
      ExtractNotesAppend(a, b[..|b| - 1]);
    }
  }

  /** A part that does not parse abandons the parts after it in its block. */
  lemma {:induction false} BlockStopsAtFailure(block: seq<Option<seq<NoteElement>>>, k: nat)
    requires k < |block| && block[k].None?
    ensures BlockNotes(block) == BlockNotes(block[..k])
  {
    if k > 0 && block[0].Some? {
      assert block[1..][..k - 1] == block[..k][1..];
      BlockStopsAtFailure(block[1..], k - 1);
    }
  }

  /** Growing the parsed prefix of a block by one parsed part appends that part's rows. */
  lemma {:induction false} BlockNotesSnoc(block: seq<Option<seq<NoteElement>>>, k: nat)
    requires k < |block| && block[k].Some?
    requires forall j :: 0 <= j < k ==> block[j].Some?
    ensures BlockNotes(block[..k + 1]) == BlockNotes(block[..k]) + PartNotes(block[k].value)
  {
    if k == 0 {
      assert block[..1] == [block[0]];
      assert block[..1][1..] == [];
    } else {
      assert block[..k + 1][1..] == block[1..][..k];
      assert block[..k][1..] == block[1..][..k - 1];
      BlockNotesSnoc(block[1..], k - 1);
    }
  }

  /**
   * The layout the converters try: `part_related_by` on footnotes, then on endnotes, each in
   * its own block, then the document part's relationships in one block. Footnote rows come
   * before endnote rows, and a part reached by both routes is read twice.
   */
  lemma TwoRoutesTable(footnotes: Option<seq<NoteElement>>, endnotes: Option<seq<NoteElement>>,
                       rels: seq<Option<seq<NoteElement>>>)
    ensures ExtractNotes([[footnotes], [endnotes], rels])
      == BlockNotes([footnotes]) + BlockNotes([endnotes]) + BlockNotes(rels)
  {
    var bs := [[footnotes], [endnotes], rels];
    assert bs[..2] == [[footnotes], [endnotes]];
    assert bs[..2][..1] == [[footnotes]];
    assert bs[..2][..1][..0] == [];
    assert ExtractNotes(bs[..2][..1]) == BlockNotes([footnotes]);
    assert ExtractNotes(bs[..2]) == BlockNotes([footnotes]) + BlockNotes([endnotes]);
  }

  // ---------------------------------------------------------------- resolving references

  /** The `[fn:N]` token of the N-th row. */
  function Token(n: nat): string {
    "[fn:" + NatToString(n) + "]"
  }

  /** The 0-based position of the first row of the table with this id. */
  function FirstIndex(notes: seq<Note>, id: string): (r: Option<nat>)
    ensures r.Some? ==> r.value < |notes| && notes[r.value].id == id
    ensures r.Some? ==> forall j :: 0 <= j < r.value ==> notes[j].id != id
    ensures r.None? <==> forall j :: 0 <= j < |notes| ==> notes[j].id != id
  {
    if notes == [] then None
    else if notes[0].id == id then Some(0)
    else
      match FirstIndex(notes[1..], id)
      case None => assert forall j :: 1 <= j < |notes| ==> notes[j] == notes[1..][j - 1]; None
      case Some(k) => Some(k + 1)
  }

  /**
   * The inner loop of `find_footnote_references_in_paragraph`: the 1-based number of the
   * first row with this id.
   */
  method LookUpNote(notes: seq<Note>, id: string) returns (num: Option<nat>)
    ensures num.Some? <==> FirstIndex(notes, id).Some?
    ensures num.Some? ==> num.value == FirstIndex(notes, id).value + 1
  {
    num := None;
    var i := 0;
    while i < |notes|
      invariant 0 <= i <= |notes|
      invariant forall j :: 0 <= j < i ==> notes[j].id != id
    {
      if notes[i].id == id {
        num := Some(i + 1);
        return;
      }
      i := i + 1;
    }
  }

  /** The token one reference yields: only a `w:footnoteReference` with an id that is in the table. */
  function RefToken(ref: NoteRef, notes: seq<Note>): seq<string> {
    if ref.kind == FootnoteRef && ref.id != "" then
      match FirstIndex(notes, ref.id)
      case Some(k) => [Token(k + 1)]
      case None => []
    else []
  }

  /** The tokens of a run's references, in the order they occur in the run. */
  function RefTokens(refs: seq<NoteRef>, notes: seq<Note>): seq<string> {
    if refs == [] then []
    else RefTokens(refs[..|refs| - 1], notes) + RefToken(refs[|refs| - 1], notes)
  }

  /** A reference yields a token exactly when it is a footnote reference whose id is in the table; the token numbers the first such row. */
  lemma RefTokenResolves(ref: NoteRef, notes: seq<Note>)
    ensures RefToken(ref, notes) != [] <==>
      ref.kind == FootnoteRef && ref.id != "" && exists j :: 0 <= j < |notes| && notes[j].id == ref.id
    ensures RefToken(ref, notes) != [] ==> exists n: nat ::
      RefToken(ref, notes) == [Token(n)] && 1 <= n <= |notes| && notes[n - 1].id == ref.id
      && forall j :: 0 <= j < n - 1 ==> notes[j].id != ref.id
  {
    if RefToken(ref, notes) != [] {
      var k := FirstIndex(notes, ref.id).value;
      assert RefToken(ref, notes) == [Token(k + 1)];
    }
  }

  /** Endnote references never yield a token. */
  lemma {:induction false} EndnoteRefsYieldNothing(refs: seq<NoteRef>, notes: seq<Note>)
    requires forall k :: 0 <= k < |refs| ==> refs[k].kind == EndnoteRef
    ensures RefTokens(refs, notes) == []
  {
    if refs != [] {
      EndnoteRefsYieldNothing(refs[..|refs| - 1], notes);
    }
  }

  /** An entry of `find_footnote_references_in_paragraph`'s result: a run index and a token. */
  datatype Marker = Marker(run: nat, token: string)

  function MarkersOf(i: nat, toks: seq<string>): (ms: seq<Marker>)
    ensures |ms| == |toks|
    ensures forall k :: 0 <= k < |ms| ==> ms[k] == Marker(i, toks[k])
  {
    if toks == [] then [] else MarkersOf(i, toks[..|toks| - 1]) + [Marker(i, toks[|toks| - 1])]
  }

  /** All markers of a paragraph: run by run, each run's tokens in order. */
  function References(runs: seq<Run>, notes: seq<Note>): seq<Marker> {
    if runs == [] then []
    else References(runs[..|runs| - 1], notes) + MarkersOf(|runs| - 1, RefTokens(runs[|runs| - 1].refs, notes))
  }

  /** `[ref for ref in footnote_refs if ref[0] == i]`, as tokens. */
  function TokensFor(ms: seq<Marker>, i: nat): seq<string> {
    if ms == [] then []
    else TokensFor(ms[..|ms| - 1], i) + (if ms[|ms| - 1].run == i then [ms[|ms| - 1].token] else [])
  }

  lemma {:induction false} TokensForAppend(a: seq<Marker>, b: seq<Marker>, i: nat)
    ensures TokensFor(a + b, i) == TokensFor(a, i) + TokensFor(b, i)
    decreases |b|
  {
    if b == [] {
      assert a + b == a;
    } else {
      assert (a + b)[..|a + b| - 1] == a + b[..|b| - 1];
      TokensForAppend(a, b[..|b| - 1], i);
    }
  }

  lemma {:induction false} TokensForMarkersOf(i: nat, toks: seq<string>, j: nat)
    ensures TokensFor(MarkersOf(i, toks), j) == if i == j then toks else []
    decreases |toks|
  {
    if toks != [] {
      var ms := MarkersOf(i, toks);
      assert ms[..|ms| - 1] == MarkersOf(i, toks[..|toks| - 1]);
      TokensForMarkersOf(i, toks[..|toks| - 1], j);
      assert toks == toks[..|toks| - 1] + [toks[|toks| - 1]];
    }
  }

  /** The markers of run `j` are exactly that run's tokens, in order. */
  lemma {:induction false} TokensForReferences(runs: seq<Run>, notes: seq<Note>, j: nat)
    ensures TokensFor(References(runs, notes), j) == if j < |runs| then RefTokens(runs[j].refs, notes) else []
  {
    if runs != [] {
      var n := |runs| - 1;
      TokensForReferences(runs[..n], notes, j);
      TokensForAppend(References(runs[..n], notes), MarkersOf(n, RefTokens(runs[n].refs, notes)), j);
      TokensForMarkersOf(n, RefTokens(runs[n].refs, notes), j);
      if j < n {
        assert runs[..n][j] == runs[j];
      }
    }
  }

  lemma MarkersOfAppend(i: nat, a: seq<string>, b: seq<string>)
    ensures MarkersOf(i, a + b) == MarkersOf(i, a) + MarkersOf(i, b)
  {
  }

  /** The inner loop of `find_footnote_references_in_paragraph`: one run's markers. */
  method RunMarkers(i: nat, run: Run, notes: seq<Note>) returns (ms: seq<Marker>)
    ensures ms == MarkersOf(i, RefTokens(run.refs, notes))
  {
    ms := [];
    var k := 0;
    while k < |run.refs|
      invariant 0 <= k <= |run.refs|
      invariant ms == MarkersOf(i, RefTokens(run.refs[..k], notes))
    {
      var ref := run.refs[k];
      assert run.refs[..k + 1][..k] == run.refs[..k];
      ghost var toks := RefTokens(run.refs[..k], notes);
      assert RefTokens(run.refs[..k + 1], notes) == toks + RefToken(ref, notes);
      MarkersOfAppend(i, toks, RefToken(ref, notes));
      if ref.kind == FootnoteRef && ref.id != "" {
        var num := LookUpNote(notes, ref.id);
        if num.Some? {
          ms := ms + [Marker(i, Token(num.value))];
        }
      }
      k := k + 1;
    }
    assert run.refs[..k] == run.refs;
  }

  /**
   * `find_footnote_references_in_paragraph`: for each run, for each of its references, the
   * run index and the token, skipping endnote references, missing ids and unknown ids.
   */
  method FindFootnoteReferences(runs: seq<Run>, notes: seq<Note>) returns (refs: seq<Marker>)
    ensures refs == References(runs, notes)
  {
    refs := [];
    var i := 0;
    while i < |runs|
      invariant 0 <= i <= |runs|
      invariant refs == References(runs[..i], notes)
    {
      var ms := RunMarkers(i, runs[i], notes);
      assert runs[..i + 1][..i] == runs[..i];
      refs := refs + ms;
      i := i + 1;
    }
    assert runs[..i] == runs;
  }

  // ---------------------------------------------------------------- splicing

  /** The loop of `_process_text_with_footnotes`: each run's text followed by its markers' tokens. */
  function SpliceRuns(runs: seq<Run>, ms: seq<Marker>): string {
    if runs == [] then []
    else SpliceRuns(runs[..|runs| - 1], ms) + runs[|runs| - 1].text + Flatten(TokensFor(ms, |runs| - 1))
  }

  /** `_process_text_with_footnotes`: the paragraph text when no reference resolves, the spliced runs otherwise. */
  function SplicedText(runs: seq<Run>, notes: seq<Note>): string {
    var ms := References(runs, notes);
    if ms == [] then ParagraphText(runs) else SpliceRuns(runs, ms)
  }

  /** Reference reading of the splice: each run's text immediately followed by its own tokens. */
  function Interleaved(runs: seq<Run>, notes: seq<Note>): string {
    if runs == [] then []
    else Interleaved(runs[..|runs| - 1], notes) + runs[|runs| - 1].text + Flatten(RefTokens(runs[|runs| - 1].refs, notes))
  }

  lemma {:induction false} SpliceRunsPrefix(runs: seq<Run>, notes: seq<Note>, k: nat)
    requires k <= |runs|
    ensures SpliceRuns(runs[..k], References(runs, notes)) == Interleaved(runs[..k], notes)
  {
    if k > 0 {
      assert runs[..k][..k - 1] == runs[..k - 1];
      SpliceRunsPrefix(runs, notes, k - 1);
      TokensForReferences(runs, notes, k - 1);
    }
  }

  lemma {:induction false} NoMarkersNoTokens(runs: seq<Run>, notes: seq<Note>)
    requires References(runs, notes) == []
    ensures Interleaved(runs, notes) == ParagraphText(runs)
  {
    if runs != [] {
      var n := |runs| - 1;
      assert |MarkersOf(n, RefTokens(runs[n].refs, notes))| == 0;
      NoMarkersNoTokens(runs[..n], notes);
    }
  }

  /**
   * Splicing puts each run's text first and then that run's tokens in discovery order;
   * with no reference at all this is the plain paragraph text.
   */
  lemma SplicedTextInterleaves(runs: seq<Run>, notes: seq<Note>)
    ensures SplicedText(runs, notes) == Interleaved(runs, notes)
  {
    if References(runs, notes) == [] {
      NoMarkersNoTokens(runs, notes);
    } else {
      SpliceRunsPrefix(runs, notes, |runs|);
      assert runs[..|runs|] == runs;
    }
  }

  /** With an empty note table the spliced text is exactly the paragraph text. */
  lemma SpliceWithoutNotes(runs: seq<Run>)
    ensures SplicedText(runs, []) == ParagraphText(runs)
  {
    NoReferencesWithoutNotes(runs);
  }

  lemma {:induction false} NoReferencesWithoutNotes(runs: seq<Run>)
    ensures References(runs, []) == []
  {
    if runs != [] {
      var n := |runs| - 1;
      NoTokensWithoutNotes(runs[n].refs);
      NoReferencesWithoutNotes(runs[..n]);
    }
  }

  lemma {:induction false} NoTokensWithoutNotes(refs: seq<NoteRef>)
    ensures RefTokens(refs, []) == []
  {
    if refs != [] {
      NoTokensWithoutNotes(refs[..|refs| - 1]);
    }
  }

  /** `[ref for ref in footnote_refs if ref[0] == i]` in `_process_text_with_footnotes`. */
  method RunTokens(ms: seq<Marker>, i: nat) returns (toks: seq<string>)
    ensures toks == TokensFor(ms, i)
  {
    toks := [];
    var k := 0;
    while k < |ms|
      invariant 0 <= k <= |ms|
      invariant toks == TokensFor(ms[..k], i)
    {
      assert ms[..k + 1][..k] == ms[..k];
      if ms[k].run == i {
        toks := toks + [ms[k].token];
      }
      k := k + 1;
    }
    assert ms[..k] == ms;
  }

  /** `_process_text_with_footnotes` as the source runs it: scan, then the run loop. */
  method ProcessTextWithFootnotes(runs: seq<Run>, notes: seq<Note>) returns (text: string)
    ensures text == Interleaved(runs, notes)
  {
    var refs := FindFootnoteReferences(runs, notes);
    SplicedTextInterleaves(runs, notes);
    if refs == [] {
      return ParagraphText(runs);
    }
    text := [];
    var i := 0;
    while i < |runs|
      invariant 0 <= i <= |runs|
      invariant text == SpliceRuns(runs[..i], refs)
    {
      var runTokens := RunTokens(refs, i);
      SpliceRunsStep(runs, refs, i);
      text := text + runs[i].text + Flatten(runTokens);
      i := i + 1;
    }
    assert runs[..i] == runs;
  }

  lemma SpliceRunsStep(runs: seq<Run>, ms: seq<Marker>, i: nat)
    requires i < |runs|
    ensures SpliceRuns(runs[..i + 1], ms) == SpliceRuns(runs[..i], ms) + runs[i].text + Flatten(TokensFor(ms, i))
  {
    assert runs[..i + 1][..i] == runs[..i];
  }

  // ---------------------------------------------------------------- the bold path's token map

  /** `{run_idx: ref for run_idx, ref in footnote_refs}.get(i)`: the last marker of run `i` wins. */
  function LastTokenFor(ms: seq<Marker>, i: nat): Option<string> {
    if ms == [] then None
    else if ms[|ms| - 1].run == i then Some(ms[|ms| - 1].token)
    else LastTokenFor(ms[..|ms| - 1], i)
  }

  lemma {:induction false} LastTokenForIsLast(ms: seq<Marker>, i: nat)
    ensures var t := TokensFor(ms, i);
      LastTokenFor(ms, i) == if t == [] then None else Some(t[|t| - 1])
  {
    if ms != [] {
      LastTokenForIsLast(ms[..|ms| - 1], i);
    }
  }

  /** In the bold path a run carries only the last of its tokens. */
  lemma BoldPathKeepsLastToken(runs: seq<Run>, notes: seq<Note>, i: nat)
    requires i < |runs|
    ensures var t := RefTokens(runs[i].refs, notes);
      LastTokenFor(References(runs, notes), i) == if t == [] then None else Some(t[|t| - 1])
  {
    var ms := References(runs, notes);
    LastTokenForIsLast(ms, i);
    TokensForReferences(runs, notes, i);
    assert TokensFor(ms, i) == RefTokens(runs[i].refs, notes);
  }

  // ---------------------------------------------------------------- references written in the text

  /** What `detect_footnote_references_in_text` reports: a number, or one of the note symbols. */
  datatype TextRef = NumberRef(value: nat) | SymbolRef(symbol: char)

  predicate IsNoteSymbol(c: char) {
    c == '†' || c == '‡' || c == '§' || c == '¶'
  }

  /** Length of the run of digits at the start of `s`. */
  function DigitPrefix(s: string): (k: nat)
    ensures k <= |s|
    ensures forall j :: 0 <= j < k ==> IsDigit(s[j])
    ensures k < |s| ==> !IsDigit(s[k])
  {
    if s != [] && IsDigit(s[0]) then 1 + DigitPrefix(s[1..]) else 0
  }

  /** `[int(m) for m in re.findall(r'\d+', s)]`: the values of the maximal digit runs, left to right. */
  function DigitRuns(s: string): seq<nat>
    decreases |s|
  {
    if s == [] then []
    else if IsDigit(s[0]) then
      var k := DigitPrefix(s);
      [DigitsValue(s[..k])] + DigitRuns(s[k..])
    else DigitRuns(s[1..])
  }

  /** `re.findall(r'[†‡§¶]', s)`. */
  function Symbols(s: string): seq<char> {
    Filter(IsNoteSymbol, s)
  }

  /** `detect_footnote_references_in_text`: the digit runs, then the symbols, each as it is found. */
  method DetectTextReferences(text: string) returns (refs: seq<TextRef>)
    ensures |refs| == |DigitRuns(text)| + |Symbols(text)|
    ensures forall k :: 0 <= k < |DigitRuns(text)| ==> refs[k] == NumberRef(DigitRuns(text)[k])
    ensures forall k :: 0 <= k < |Symbols(text)| ==> refs[|DigitRuns(text)| + k] == SymbolRef(Symbols(text)[k])
  {
    var numbers := DigitRuns(text);
    var symbols := Symbols(text);
    refs := [];
    var i := 0;
    while i < |numbers|
      invariant 0 <= i <= |numbers| && |refs| == i
      invariant forall k :: 0 <= k < i ==> refs[k] == NumberRef(numbers[k])
    {
      refs := refs + [NumberRef(numbers[i])];
      i := i + 1;
    }
    var j := 0;
    while j < |symbols|
      invariant 0 <= j <= |symbols| && |refs| == |numbers| + j
      invariant forall k :: 0 <= k < |numbers| ==> refs[k] == NumberRef(numbers[k])
      invariant forall k :: 0 <= k < j ==> refs[|numbers| + k] == SymbolRef(symbols[k])
    {
      refs := refs + [SymbolRef(symbols[j])];
      j := j + 1;
    }
  }

  /** A text that is one decimal number reports just that number. */
  lemma DigitRunsOfNumber(n: nat)
    ensures DigitRuns(NatToString(n)) == [n]
  {
    DigitRunsOfDigits(NatToString(n));
  }

  /** A text made only of digits is one run, read as a decimal number (leading zeros add nothing). */
  lemma DigitRunsOfDigits(d: string)
    requires IsDigits(d)
    ensures DigitRuns(d) == [DigitsValue(d)]
  {
    assert DigitPrefix(d) == |d| by {
      DigitPrefixAll(d);
    }
    assert d[..|d|] == d;
    assert d[|d|..] == [];
  }

  /** A non-digit separates runs: the runs of `a + [c] + b` are those of `a`, then those of `b`. */
  lemma {:induction false} DigitRunsSplit(a: string, c: char, b: string)
    requires !IsDigit(c)
    ensures DigitRuns(a + [c] + b) == DigitRuns(a) + DigitRuns(b)
    decreases |a|
  {
    var s := a + [c] + b;
    if a == [] {
      assert s[1..] == b;
    } else if !IsDigit(a[0]) {
      assert s[1..] == a[1..] + [c] + b;
      DigitRunsSplit(a[1..], c, b);
    } else {
      var k := DigitPrefix(a);
      DigitPrefixSplit(a, c, b);
      assert s[..k] == a[..k];
      assert s[k..] == a[k..] + [c] + b;
      DigitRunsSplit(a[k..], c, b);
    }
  }

  lemma {:induction false} DigitPrefixSplit(a: string, c: char, b: string)
    requires !IsDigit(c)
    ensures DigitPrefix(a + [c] + b) == DigitPrefix(a)
  {
    var s := a + [c] + b;
    if a != [] && IsDigit(a[0]) {
      assert s[1..] == a[1..] + [c] + b;
      DigitPrefixSplit(a[1..], c, b);
    }
  }

  lemma {:induction false} DigitPrefixAll(s: string)
    requires forall j :: 0 <= j < |s| ==> IsDigit(s[j])
    ensures DigitPrefix(s) == |s|
  {
    if s != [] {
      DigitPrefixAll(s[1..]);
    }
  }

  /** The symbols reported are note symbols of the text, and a text without digits reports no number. */
  lemma TextReferencesShape(text: string)
    ensures forall k :: 0 <= k < |Symbols(text)| ==> IsNoteSymbol(Symbols(text)[k]) && Symbols(text)[k] in text
    ensures (forall j :: 0 <= j < |text| ==> !IsDigit(text[j])) ==> DigitRuns(text) == []
  {
    FilterMembers(IsNoteSymbol, text);
    if forall j :: 0 <= j < |text| ==> !IsDigit(text[j]) {
      NoDigitsNoRuns(text);
    }
  }

  lemma {:induction false} NoDigitsNoRuns(s: string)
    requires forall j :: 0 <= j < |s| ==> !IsDigit(s[j])
    ensures DigitRuns(s) == []
  {
    if s != [] {
      NoDigitsNoRuns(s[1..]);
    }
  }
}
