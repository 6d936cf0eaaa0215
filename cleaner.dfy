/**
 * The Org file cleaner: a line-by-line rewrite that takes one leading `- ` or `-\t` off
 * each line, drops whitespace-only lines, trims a run of trailing blank lines down to one,
 * and counts every change it makes.
 */
module OrgCleaner {
  import opened Wrappers
  import opened OrgStrings
  import opened Seqs

  /** The two choices of `ask_what_to_remove`. */
  datatype Options = Options(removeEmptyParagraphs: bool, removeDashes: bool)

  /** Whether the dash rule takes a prefix off this line. */
  predicate DashRemoved(o: Options, line: string) {
    o.removeDashes && (StartsWith(line, "- ") || StartsWith(line, "-\t"))
  }

  /** The line after the dash rule. */
  function AfterDash(o: Options, line: string): string {
    if DashRemoved(o, line) then line[2..] else line
  }

  /** Whether the empty-paragraph rule drops this line (after the dash rule). */
  predicate Dropped(o: Options, line: string) {
    o.removeEmptyParagraphs && IsBlank(AfterDash(o, line))
  }

  /** The first loop: the lines kept, each after the dash rule, in their order. */
  function Kept(o: Options, lines: seq<string>): (r: seq<string>)
    ensures |r| <= |lines|
  {
    if lines == [] then []
    else
      var last := lines[|lines| - 1];
      Kept(o, lines[..|lines| - 1]) + (if Dropped(o, last) then [] else [AfterDash(o, last)])
  }

  /** How many lines the dash rule changed. */
  function DashCount(o: Options, lines: seq<string>): nat {
    if lines == [] then 0
    else DashCount(o, lines[..|lines| - 1]) + (if DashRemoved(o, lines[|lines| - 1]) then 1 else 0)
  }

  /**
   * The second loop: while there are at least two lines and the last two are blank, pop
   * the last one.
   */
  function TrimTrailing(ls: seq<string>): (r: seq<string>)
    ensures |r| <= |ls|
    decreases |ls|
  {
    if |ls| > 1 && IsBlank(ls[|ls| - 1]) && IsBlank(ls[|ls| - 2]) then TrimTrailing(ls[..|ls| - 1])
    else ls
  }

  /** `clean_org_content`: the lines joined with `\n`, and the number of changes. */
  function Clean(o: Options, content: string): (string, nat) {
    var lines := SplitLines(content);
    var kept := Kept(o, lines);
    var result := TrimTrailing(kept);
    (Join(result, "\n"), DashCount(o, lines) + (|lines| - |kept|) + (|kept| - |result|))
  }

  /** Kept lines are the dash-treated lines that are not dropped, in their original order. */
  lemma {:induction false} KeptIsFiltered(o: Options, lines: seq<string>)
    ensures Kept(o, lines) ==
      Filter((l: string) => !(o.removeEmptyParagraphs && IsBlank(l)), seq(|lines|, i requires 0 <= i < |lines| => AfterDash(o, lines[i])))
  {
    if lines != [] {
      var n := |lines| - 1;
      KeptIsFiltered(o, lines[..n]);
      var mapped := seq(|lines|, i requires 0 <= i < |lines| => AfterDash(o, lines[i]));
      assert mapped[..n] == seq(n, i requires 0 <= i < n => AfterDash(o, lines[..n][i]));
    }
  }

  /** With neither option set, the first loop hands every line back untouched. */
  lemma {:induction false} NoOptionsKeepsLines(lines: seq<string>)
    ensures Kept(Options(false, false), lines) == lines
  {
    if lines != [] {
      NoOptionsKeepsLines(lines[..|lines| - 1]);
      assert lines[..|lines| - 1] + [lines[|lines| - 1]] == lines;
    }
  }

  /** With the empty-paragraph option no kept line is blank. */
  lemma {:induction false} NoBlankKept(o: Options, lines: seq<string>)
    requires o.removeEmptyParagraphs
    ensures forall k :: 0 <= k < |Kept(o, lines)| ==> !IsBlank(Kept(o, lines)[k])
  {
    if lines != [] {
      var init := Kept(o, lines[..|lines| - 1]);
      NoBlankKept(o, lines[..|lines| - 1]);
      var last := lines[|lines| - 1];
      var ext := if Dropped(o, last) then [] else [AfterDash(o, last)];
      forall k | 0 <= k < |init + ext| ensures !IsBlank((init + ext)[k]) {
        if k < |init| {
          assert (init + ext)[k] == init[k];
        }
      }
    }
  }

  /** The dash rule takes off exactly one `- ` or `-\t`, or nothing. */
  lemma DashRuleShape(o: Options, line: string)
    ensures AfterDash(o, line) == line
      || "- " + AfterDash(o, line) == line || "-\t" + AfterDash(o, line) == line
  {
    if DashRemoved(o, line) {
      assert line == line[..2] + line[2..];
    }
  }

  /** Trimming only takes blank lines off the end. */
  lemma {:induction false} TrimTrailingPrefix(ls: seq<string>)
    ensures TrimTrailing(ls) == ls[..|TrimTrailing(ls)|]
    ensures forall k :: |TrimTrailing(ls)| <= k < |ls| ==> IsBlank(ls[k])
    decreases |ls|
  {
    if |ls| > 1 && IsBlank(ls[|ls| - 1]) && IsBlank(ls[|ls| - 2]) {
      var init := ls[..|ls| - 1];
      TrimTrailingPrefix(init);
      var m := |TrimTrailing(init)|;
      assert init[..m] == ls[..m];
      forall k | m <= k < |ls| ensures IsBlank(ls[k]) {
        if k < |ls| - 1 {
          assert ls[k] == init[k];
        }
      }
    }
  }

  /** After trimming, the text never ends with two blank lines. */
  lemma {:induction false} TrimTrailingEnds(ls: seq<string>)
    ensures var r := TrimTrailing(ls);
      !(|r| > 1 && IsBlank(r[|r| - 1]) && IsBlank(r[|r| - 2]))
    decreases |ls|
  {
    if |ls| > 1 && IsBlank(ls[|ls| - 1]) && IsBlank(ls[|ls| - 2]) {
      TrimTrailingEnds(ls[..|ls| - 1]);
    }
  }

  /**
   * A count of 0 means nothing was changed: the lines written would be the lines read, so
   * the file is left alone.
   */
  lemma NoChangesMeansSameLines(o: Options, content: string)
    requires Clean(o, content).1 == 0
    ensures TrimTrailing(Kept(o, SplitLines(content))) == SplitLines(content)
  {
    var lines := SplitLines(content);
    var kept := Kept(o, lines);
    NoChangeKeepsAll(o, lines);
  }

  /** With no dash removed and no line dropped, the first loop is the identity. */
  lemma {:induction false} NoChangeKeepsAll(o: Options, lines: seq<string>)
    requires DashCount(o, lines) == 0 && |Kept(o, lines)| == |lines|
    ensures Kept(o, lines) == lines
  {
    if lines != [] {
      var n := |lines| - 1;
      NoChangeKeepsAll(o, lines[..n]);
      assert lines[..n] + [lines[n]] == lines;
    }
  }

  class OrgModeCleaner {
    var removeEmptyParagraphs: bool
    var removeDashes: bool
    var previewMode: bool

    constructor(removeEmpty: bool, dashes: bool, preview: bool)
      ensures removeEmptyParagraphs == removeEmpty && removeDashes == dashes && previewMode == preview
    {
      removeEmptyParagraphs := removeEmpty;
      removeDashes := dashes;
      previewMode := preview;
    }

    function Opts(): Options
      reads this
    {
      Options(removeEmptyParagraphs, removeDashes)
    }

    /** `clean_org_content`: both loops over the split lines. */
    method CleanOrgContent(content: string) returns (cleaned: string, changes: nat)
      ensures (cleaned, changes) == Clean(Opts(), content)
    {
      var lines := SplitLines(content);
      var cleanedLines, changes1 := FirstPass(Opts(), lines);
      var trimmed, pops := TrailingPass(cleanedLines);
      changes := changes1 + pops;
      cleaned := Join(trimmed, "\n");
      assert Clean(Opts(), content) == (Join(TrimTrailing(Kept(Opts(), lines)), "\n"),
        DashCount(Opts(), lines) + (|lines| - |cleanedLines|) + (|cleanedLines| - |trimmed|));
    }

    /**
     * `process_file` once the text is read: nothing to write when there were no changes;
     * in preview mode the answer must be `y` or `yes`. Returns the result and the text
     * written, if any.
     */
    method ProcessFile(content: string, answer: string) returns (ok: bool, written: Option<string>)
      ensures var (cleaned, changes) := Clean(Opts(), content);
        if changes == 0 then ok && written == None
        else if previewMode && Lower(Strip(answer)) != "y" && Lower(Strip(answer)) != "yes" then !ok && written == None
        else ok && written == Some(cleaned)
    {
      var cleaned, changes := CleanOrgContent(content);
      if changes == 0 {
        return true, None;
      }
      if previewMode {
        var confirm := Lower(Strip(answer));
        if confirm != "y" && confirm != "yes" {
          return false, None;
        }
      }
      return true, Some(cleaned);
    }
  }

  /** The `while i < len(lines)` loop. */
  method FirstPass(o: Options, lines: seq<string>) returns (cleanedLines: seq<string>, changes: nat)
    ensures cleanedLines == Kept(o, lines)
    ensures changes == DashCount(o, lines) + (|lines| - |Kept(o, lines)|)
  {
    cleanedLines, changes := [], 0;
    var i := 0;
    while i < |lines|
      invariant 0 <= i <= |lines|
      invariant cleanedLines == Kept(o, lines[..i]) && |cleanedLines| <= i
      invariant changes == DashCount(o, lines[..i]) + (i - |cleanedLines|)
    {
      FirstPassStep(o, lines, i);
      var line := lines[i];
      if o.removeDashes {
        if StartsWith(line, "- ") {
          line := line[2..];
          changes := changes + 1;
        } else if StartsWith(line, "-\t") {
          line := line[2..];
          changes := changes + 1;
        }
      }
      assert line == AfterDash(o, lines[i]);
      var isEmpty := Strip(line) == [];
      if isEmpty && o.removeEmptyParagraphs {
        changes := changes + 1;
        i := i + 1;
        continue;
      }
      cleanedLines := cleanedLines + [line];
      i := i + 1;
    }
    assert lines[..i] == lines;
  }

  /** One more line through the first loop. */
  lemma FirstPassStep(o: Options, lines: seq<string>, i: nat)
    requires i < |lines|
    ensures Kept(o, lines[..i + 1]) == Kept(o, lines[..i]) + (if Dropped(o, lines[i]) then [] else [AfterDash(o, lines[i])])
    ensures DashCount(o, lines[..i + 1]) == DashCount(o, lines[..i]) + (if DashRemoved(o, lines[i]) then 1 else 0)
  {
    assert lines[..i + 1][..i] == lines[..i];
  }

  /** The trailing-blank loop: pop while the last two lines are blank. */
  method TrailingPass(ls: seq<string>) returns (r: seq<string>, pops: nat)
    ensures r == TrimTrailing(ls) && pops == |ls| - |r|
  {
    r, pops := ls, 0;
    while |r| > 1 && Strip(r[|r| - 1]) == []
      invariant TrimTrailing(r) == TrimTrailing(ls) && |r| <= |ls| && pops == |ls| - |r|
      decreases |r|
    {
      if |r| > 1 && Strip(r[|r| - 2]) == [] {
        r := r[..|r| - 1];
        pops := pops + 1;
      } else {
        break;
      }
    }
  }
}
