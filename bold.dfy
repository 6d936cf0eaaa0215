/**
 * The bold path of the converters: runs are cut into maximal stretches of equal boldness
 * (`extract_bold_portions` and `extract_bold_portions_with_footnotes`), and the stretches
 * become `** ` heading lines followed by plain lines.
 */
module BoldSegments {
  import opened Wrappers
  import opened OrgStrings
  import opened Seqs
  import opened Docx
  import opened Notes

  /** A run as the segmentation sees it: whether it is bold, and the text it contributes. */
  datatype Piece = Piece(bold: bool, text: string)

  /** A maximal stretch of consecutive pieces with the same boldness: the flag and their texts. */
  datatype Group = Group(bold: bool, texts: seq<string>)

  /** One step of the grouping: a piece joins the last stretch when it has the same boldness, else opens a new one. */
  function AddPiece(gs: seq<Group>, p: Piece): seq<Group> {
    if gs != [] && gs[|gs| - 1].bold == p.bold then gs[..|gs| - 1] + [Group(p.bold, gs[|gs| - 1].texts + [p.text])]
    else gs + [Group(p.bold, [p.text])]
  }

  /** Neighbouring stretches differ in boldness. */
  ghost predicate Alternating(gs: seq<Group>) {
    forall j, k :: 0 <= j < k < |gs| && k == j + 1 ==> gs[j].bold != gs[k].bold
  }

  /** The stretches of equal boldness, left to right. */
  function Groups(ps: seq<Piece>): (gs: seq<Group>)
    ensures ps == [] <==> gs == []
    ensures ps != [] ==> gs[|gs| - 1].bold == ps[|ps| - 1].bold
  {
    if ps == [] then [] else AddPiece(Groups(ps[..|ps| - 1]), ps[|ps| - 1])
  }

  /** Every stretch holds at least one piece, and neighbouring stretches differ in boldness. */
  lemma {:induction false} GroupsAlternate(ps: seq<Piece>)
    ensures forall k :: 0 <= k < |Groups(ps)| ==> Groups(ps)[k].texts != []
    ensures Alternating(Groups(ps))
  {
    if ps != [] {
      GroupsAlternate(ps[..|ps| - 1]);
    }
  }

  /** The pieces a stretch stands for. */
  function Spread(g: Group): (ps: seq<Piece>)
    ensures |ps| == |g.texts|
  {
    seq(|g.texts|, k requires 0 <= k < |g.texts| => Piece(g.bold, g.texts[k]))
  }

  /** Undo the grouping: every stretch spread back into pieces. */
  function Ungroup(gs: seq<Group>): seq<Piece> {
    if gs == [] then [] else Ungroup(gs[..|gs| - 1]) + Spread(gs[|gs| - 1])
  }

  lemma UngroupSnoc(gs: seq<Group>, g: Group)
    ensures Ungroup(gs + [g]) == Ungroup(gs) + Spread(g)
  {
    assert (gs + [g])[..|gs|] == gs;
  }

  lemma UngroupAddPiece(gs: seq<Group>, p: Piece)
    ensures Ungroup(AddPiece(gs, p)) == Ungroup(gs) + [p]
  {
    if gs != [] && gs[|gs| - 1].bold == p.bold {
      var init, last := gs[..|gs| - 1], gs[|gs| - 1];
      assert gs == init + [last];
      UngroupSnoc(init, last);
      var g := Group(p.bold, last.texts + [p.text]);
      UngroupSnoc(init, g);
      assert Spread(g) == Spread(last) + [p];
    } else {
      UngroupSnoc(gs, Group(p.bold, [p.text]));
    }
  }

  /**
   * The grouping loses, adds and reorders nothing: spreading the stretches back gives the
   * pieces. With the alternation and non-emptiness in `Groups`' contract this says the
   * stretches are exactly the maximal runs of equal boldness.
   */
  lemma {:induction false} UngroupGroups(ps: seq<Piece>)
    ensures Ungroup(Groups(ps)) == ps
  {
    if ps != [] {
      var init, p := ps[..|ps| - 1], ps[|ps| - 1];
      assert init + [p] == ps;
      GroupsSnoc(init, p);
      UngroupAddPiece(Groups(init), p);
      UngroupGroups(init);
    }
  }

  /** One more piece is one more step of the grouping. */
  lemma GroupsSnoc(init: seq<Piece>, p: Piece)
    ensures Groups(init + [p]) == AddPiece(Groups(init), p)
  {
    assert (init + [p])[..|init|] == init;
  }

  /** `bold_text`: each bold stretch's texts joined. */
  function BoldParts(gs: seq<Group>): seq<string> {
    if gs == [] then []
    else BoldParts(gs[..|gs| - 1]) + (if gs[|gs| - 1].bold then [Flatten(gs[|gs| - 1].texts)] else [])
  }

  /** `regular_text`: each non-bold stretch's texts joined. */
  function RegularParts(gs: seq<Group>): seq<string> {
    if gs == [] then []
    else RegularParts(gs[..|gs| - 1]) + (if gs[|gs| - 1].bold then [] else [Flatten(gs[|gs| - 1].texts)])
  }

  /** In a sequence of stretches that alternate, bold and regular counts differ by at most one. */
  lemma {:induction false} AlternatingCounts(gs: seq<Group>)
    requires Alternating(gs)
    ensures var d := |BoldParts(gs)| - |RegularParts(gs)|;
      -1 <= d <= 1
      && (d == 1 ==> gs[|gs| - 1].bold)
      && (d == -1 ==> !gs[|gs| - 1].bold)
  {
    if gs != [] {
      AlternatingCounts(gs[..|gs| - 1]);
    }
  }

  /** Bold and regular parts alternate, so their numbers differ by at most one. */
  lemma PortionCounts(ps: seq<Piece>)
    ensures -1 <= |BoldParts(Groups(ps))| - |RegularParts(Groups(ps))| <= 1
  {
    GroupsAlternate(ps);
    AlternatingCounts(Groups(ps));
  }

  lemma BoldRegularSnoc(gs: seq<Group>, g: Group)
    ensures BoldParts(gs + [g]) == BoldParts(gs) + (if g.bold then [Flatten(g.texts)] else [])
    ensures RegularParts(gs + [g]) == RegularParts(gs) + (if g.bold then [] else [Flatten(g.texts)])
  {
    assert (gs + [g])[..|gs|] == gs;
  }

  /**
   * The loop state after the pieces that make up `gs`: the closed stretches are in the
   * part lists and the open (last) stretch is in the accumulator of its boldness.
   */
  ghost predicate Accumulated(gs: seq<Group>, boldText: seq<string>, regularText: seq<string>,
                              currentBold: seq<string>, currentRegular: seq<string>)
  {
    if gs == [] then boldText == [] && regularText == [] && currentBold == [] && currentRegular == []
    else
      var last := gs[|gs| - 1];
      (if last.bold then currentBold == last.texts && currentRegular == []
       else currentRegular == last.texts && currentBold == [])
      && last.texts != []
      && boldText == BoldParts(gs[..|gs| - 1]) && regularText == RegularParts(gs[..|gs| - 1])
  }

  lemma StepBold(gs: seq<Group>, p: Piece, boldText: seq<string>, regularText: seq<string>,
                 currentBold: seq<string>, currentRegular: seq<string>)
    requires Accumulated(gs, boldText, regularText, currentBold, currentRegular) && p.bold
    ensures Accumulated(AddPiece(gs, p), boldText,
      if currentRegular != [] then regularText + [Flatten(currentRegular)] else regularText,
      currentBold + [p.text], [])
  {
    if gs != [] {
      var init, last := gs[..|gs| - 1], gs[|gs| - 1];
      assert gs == init + [last];
      BoldRegularSnoc(init, last);
      var next := AddPiece(gs, p);
      if last.bold {
        assert next[..|next| - 1] == init;
      } else {
        assert next[..|next| - 1] == gs;
      }
    }
  }

  lemma StepRegular(gs: seq<Group>, p: Piece, boldText: seq<string>, regularText: seq<string>,
                    currentBold: seq<string>, currentRegular: seq<string>)
    requires Accumulated(gs, boldText, regularText, currentBold, currentRegular) && !p.bold
    ensures Accumulated(AddPiece(gs, p),
      if currentBold != [] then boldText + [Flatten(currentBold)] else boldText, regularText,
      [], currentRegular + [p.text])
  {
    if gs != [] {
      var init, last := gs[..|gs| - 1], gs[|gs| - 1];
      assert gs == init + [last];
      BoldRegularSnoc(init, last);
      var next := AddPiece(gs, p);
      if !last.bold {
        assert next[..|next| - 1] == init;
      } else {
        assert next[..|next| - 1] == gs;
      }
    }
  }

  lemma Finish(gs: seq<Group>, boldText: seq<string>, regularText: seq<string>,
               currentBold: seq<string>, currentRegular: seq<string>)
    requires Accumulated(gs, boldText, regularText, currentBold, currentRegular)
    ensures BoldParts(gs) == if currentBold != [] then boldText + [Flatten(currentBold)] else boldText
    ensures RegularParts(gs) == if currentRegular != [] then regularText + [Flatten(currentRegular)] else regularText
  {
    if gs != [] {
      var init, last := gs[..|gs| - 1], gs[|gs| - 1];
      assert gs == init + [last];
      BoldRegularSnoc(init, last);
    }
  }

  /**
   * The accumulator loop of `extract_bold_portions`: consecutive pieces of the same boldness
   * are collected and joined into one part, flushed when the flag changes and at the end.
   */
  method ExtractBoldPortions(ps: seq<Piece>) returns (boldText: seq<string>, regularText: seq<string>)
    ensures boldText == BoldParts(Groups(ps))
    ensures regularText == RegularParts(Groups(ps))
  {
    boldText, regularText := [], [];
    var currentBold: seq<string> := [];
    var currentRegular: seq<string> := [];
    var i := 0;
    while i < |ps|
      invariant 0 <= i <= |ps|
      invariant Accumulated(Groups(ps[..i]), boldText, regularText, currentBold, currentRegular)
    {
      var p := ps[i];
      assert ps[..i + 1][..i] == ps[..i];
      if p.bold {
        StepBold(Groups(ps[..i]), p, boldText, regularText, currentBold, currentRegular);
        if currentRegular != [] {
          regularText := regularText + [Flatten(currentRegular)];
          currentRegular := [];
        }
        currentBold := currentBold + [p.text];
      } else {
        StepRegular(Groups(ps[..i]), p, boldText, regularText, currentBold, currentRegular);
        if currentBold != [] {
          boldText := boldText + [Flatten(currentBold)];
          currentBold := [];
        }
        currentRegular := currentRegular + [p.text];
      }
      i := i + 1;
    }
    assert ps[..i] == ps;
    Finish(Groups(ps), boldText, regularText, currentBold, currentRegular);
    if currentBold != [] {
      boldText := boldText + [Flatten(currentBold)];
    }
    if currentRegular != [] {
      regularText := regularText + [Flatten(currentRegular)];
    }
  }

  /** The pieces of `extract_bold_portions`: each run's own text. */
  function PlainPieces(runs: seq<Run>): (ps: seq<Piece>)
    ensures |ps| == |runs|
  {
    seq(|runs|, i requires 0 <= i < |runs| => Piece(runs[i].bold, runs[i].text))
  }

  /**
   * The pieces of `extract_bold_portions_with_footnotes`: each run's text followed by the
   * one token the run-index map keeps for it, the last of the run's tokens.
   */
  function TokenPieces(runs: seq<Run>, notes: seq<Note>): (ps: seq<Piece>)
    ensures |ps| == |runs|
  {
    var ms := References(runs, notes);
    seq(|runs|, i requires 0 <= i < |runs| =>
      Piece(runs[i].bold, runs[i].text + match LastTokenFor(ms, i) case Some(t) => t case None => ""))
  }

  /** A run's piece in the bold path carries its text and only the last of its tokens. */
  lemma TokenPieceOfRun(runs: seq<Run>, notes: seq<Note>, i: nat)
    requires i < |runs|
    ensures var t := RefTokens(runs[i].refs, notes);
      TokenPieces(runs, notes)[i] ==
        Piece(runs[i].bold, runs[i].text + if t == [] then "" else t[|t| - 1])
  {
    BoldPathKeepsLastToken(runs, notes, i);
  }

  /** `extract_bold_portions_with_footnotes`: the reference scan, the run-index map, then the same loop. */
  method ExtractBoldPortionsWithFootnotes(runs: seq<Run>, notes: seq<Note>)
    returns (boldText: seq<string>, regularText: seq<string>)
    ensures boldText == BoldParts(Groups(TokenPieces(runs, notes)))
    ensures regularText == RegularParts(Groups(TokenPieces(runs, notes)))
  {
    var refs := FindFootnoteReferences(runs, notes);
    var ps := seq(|runs|, i requires 0 <= i < |runs| =>
      Piece(runs[i].bold, runs[i].text + match LastTokenFor(refs, i) case Some(t) => t case None => ""));
    boldText, regularText := ExtractBoldPortions(ps);
  }

  /** The plain pieces carry nothing of the runs' references: the with-footnotes converter's bold path loses its tokens. */
  lemma {:induction false} PlainPiecesText(runs: seq<Run>)
    ensures Flatten(seq(|runs|, i requires 0 <= i < |runs| => PlainPieces(runs)[i].text)) == ParagraphText(runs)
  {
    if runs != [] {
      var n := |runs| - 1;
      PlainPiecesText(runs[..n]);
      assert seq(|runs|, i requires 0 <= i < |runs| => PlainPieces(runs)[i].text)[..n]
          == seq(n, i requires 0 <= i < n => PlainPieces(runs[..n])[i].text);
    }
  }

  /**
   * The lines of the bold path: a `** ` line for each non-blank bold part, then a line for
   * each non-blank regular part, all stripped.
   */
  function HeadingLines(parts: seq<string>): (lines: seq<string>)
    ensures |lines| <= |parts|
    ensures forall k :: 0 <= k < |lines| ==> StartsWith(lines[k], "** ") && !IsBlank(lines[k][3..])
  {
    if parts == [] then []
    else
      var init := HeadingLines(parts[..|parts| - 1]);
      var s := Strip(parts[|parts| - 1]);
      if s == [] then init
      else
        var line := "** " + s;
        assert line[3..] == s;
        init + [line]
  }

  function TextLines(parts: seq<string>): (lines: seq<string>)
    ensures |lines| <= |parts|
    ensures forall k :: 0 <= k < |lines| ==> !IsBlank(lines[k]) && Strip(lines[k]) == lines[k]
  {
    if parts == [] then []
    else
      var init := TextLines(parts[..|parts| - 1]);
      var s := Strip(parts[|parts| - 1]);
      StripIdempotent(parts[|parts| - 1]);
      if s == [] then init else init + [s]
  }

  /**
   * A regular piece followed by a bold one, neither blank, gives the `** ` line of the bold
   * text first and then the regular text: the source order is not kept.
   */
  lemma RegularThenBold(a: string, b: string)
    requires !IsBlank(a) && !IsBlank(b)
    ensures var gs := Groups([Piece(false, a), Piece(true, b)]);
      HeadingLines(BoldParts(gs)) + TextLines(RegularParts(gs)) == ["** " + Strip(b), Strip(a)]
  {
    TwoGroupsParts(a, b);
    SinglePartLines(a);
    SinglePartLines(b);
  }

  /** A regular piece and then a bold one are two stretches, one bold part and one regular part. */
  lemma TwoGroupsParts(a: string, b: string)
    ensures var gs := Groups([Piece(false, a), Piece(true, b)]);
      BoldParts(gs) == [b] && RegularParts(gs) == [a]
  {
    var pa, pb := Piece(false, a), Piece(true, b);
    var g1, g2 := Group(false, [a]), Group(true, [b]);
    GroupsSnoc([], pa);
    assert [] + [pa] == [pa];
    assert AddPiece([], pa) == [g1];
    GroupsSnoc([pa], pb);
    assert [pa] + [pb] == [pa, pb];
    assert AddPiece([g1], pb) == [g1] + [g2];
    BoldRegularSnoc([], g1);
    assert [] + [g1] == [g1];
    BoldRegularSnoc([g1], g2);
    FlattenSingle(a);
    FlattenSingle(b);
  }

  /** A single non-blank part gives one line of each kind. */
  lemma SinglePartLines(x: string)
    requires !IsBlank(x)
    ensures HeadingLines([x]) == ["** " + Strip(x)] && TextLines([x]) == [Strip(x)]
  {
    assert [x][..0] == [];
  }

  /** A blank part adds no line; any other part adds exactly one. */
  lemma {:induction false} TextLinesCount(parts: seq<string>)
    ensures |TextLines(parts)| == |Filter((s: string) => !IsBlank(s), parts)|
    ensures |HeadingLines(parts)| == |Filter((s: string) => !IsBlank(s), parts)|
  {
    if parts != [] {
      TextLinesCount(parts[..|parts| - 1]);
    }
  }
}
