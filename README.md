# DOCX-to-Org converters, Org cleaner and document finders, modelled in Dafny

The repository is a set of Python scripts built around Org-mode notes, in three parts.

- **DOCX-to-Org converters.** They turn a Word document's paragraphs into Org lines:
  - centered paragraphs become `* ` headings;
  - bold runs become `** ` headings, followed by the regular text;
  - list items get indented `-`/`+`/`*` or `N.` prefixes, numbered through two stacks (depth and counter);
  - footnote references become `[fn:N]` tokens, with a `* Footnotes` trailer after the body.

  The model covers four variants of the main converter as one class over a `Variant`:
  - `Complete`, for `docx_to_org_enhanced/docx_to_org_complete.py`;
  - `CompleteNew`, for `docx_to_org_complete_new.py`;
  - `WithFootnotes`, for `docx_to_org_with_footnotes.py`;
  - `Basic`, for `docx_to_org.py`.

  It also covers `docx_to_org_simple.py`, and the heading and run-formatting logic of `docx_to_org_enhanced.py`.
- **Org cleaner.** `org_cleaner.py` removes leading `- ` dashes and blank paragraphs, and trims trailing blank lines. It counts every change and writes only when something changed. In preview mode it asks first.
- **Document finders.**
  - The `fd`/`grep` search scripts (`file_opener.py`, `file_opener_copy.py`, `finder/file_opener_3.py`): the document-file test, the search filters, and the number prompts.
  - The bookkeeping of the Textual screens in `finder/file_opener_tuo_copy.py` and `finder/file_opener_tuo_copy_copy.py`: row selections, pickers, the main screen's lists, and the open command.

A `.docx` file is given to the model already parsed:
- paragraphs, with their runs, alignment, style and numbering record;
- note elements, grouped the way the extraction's `try` blocks read them.

External programs (`fd`, `grep`, `find`, `fzf`, `which`) and the file system are also given, as their outputs or as sets of paths.

Modules and files:

| file | module | contents |
|---|---|---|
| `wrappers.dfy` | `Wrappers` | `Option`, `Result` |
| `strings.dfy` | `OrgStrings` | Python's `strip`, `lower` (ASCII), `isdigit` and `int()` (ASCII digits), `str()`, `split`, `join`, `splitlines`, string order |
| `seqs.dfy` | `Seqs` | flatten and filter |
| `docx.dfy` | `Docx` | the parsed document |
| `notes.dfy` | `Notes` | note extraction, the first-match lookup, reference scanning, token splicing |
| `bold.dfy` | `BoldSegments` | grouping runs into bold and regular parts |
| `lists.dfy`, `marker_examples.dfy` | `Lists`, `MarkerExamples` | the list-marker patterns: matching, removal, detection from text |
| `detection.dfy` | `ListDetection` | `detect_list_type_and_level` |
| `numbering.dfy` | `ListNumbering` | list prefixes and the two-stack numbering |
| `headings.dfy` | `Headings` | `detect_heading_level` and `get_run_formatting` of the enhanced script |
| `converter.dfy` | `Converter` | the paragraph step, the trailer, and the class `DocxToOrgConverter` |
| `simple.dfy` | `SimpleConverter` | `docx_to_org_simple.py` |
| `cleaner.dfy` | `OrgCleaner` | the class `OrgModeCleaner` |
| `documents.dfy` | `DocumentFiles` | `is_document_file` and the `fd` searches |
| `selection.dfy` | `Selection` | the number prompts |
| `results.dfy` | `SearchResults` | sorting, de-duplication, the grep filters, the tree walk, the multi-directory search |
| `screens.dfy` | `FinderScreens` | the screen classes |

Where the documented behaviour and the code disagree, the model follows the code:

- **The regular part of a bold paragraph is stripped.** So `Hello ` followed by bold `World` gives `** World` and then `Hello`, without the space (`Converter.RegularThenBoldParagraph`).
- **The with-footnotes variant loses tokens.** It builds the bold path from the bare run texts, so a bold paragraph loses its `[fn:N]` tokens (`Converter.BoldPathDropsTokens`).
- **Two extra line breaks before `* Footnotes`.** The trailer appends an empty entry and then `* Footnotes`, and every entry is joined with `"\n\n"`. So `* Footnotes` comes after two extra line breaks, not after one blank line (`Converter.TrailerShape`).
- **A raw string level fails the whole conversion.** In `docx_to_org_complete_new.py` a level read from a list style's XML stays a string, so `level + 1` raises `TypeError` (line 569). The `except` at lines 684-686 then turns that into a failed conversion of the whole document. It is not a default "no list" answer (`Converter.StringLevelFails`).
- **The simple converter numbers notes by their source id.** It writes notes under the id from the document, not under a running number.

## Model

| member | source | states |
|---|---|---|
| OrgCleaner.KeptIsFiltered | org_cleaner.py:137-161 | the lines kept are exactly the dash-treated lines that are not blank under the empty-paragraph option, in their original order |
| OrgCleaner.NoOptionsKeepsLines | org_cleaner.py:137-161 | with neither option set every line is kept unchanged |
| OrgCleaner.NoBlankKept | org_cleaner.py:152-158 | with the empty-paragraph option no kept line is blank |
| OrgCleaner.DashRuleShape | org_cleaner.py:143-149 | the dash rule removes exactly one leading `- ` or `-\t`, or nothing |
| OrgCleaner.TrimTrailingPrefix | org_cleaner.py:164-169 | trimming keeps a prefix of the lines, and every line it removes is blank |
| OrgCleaner.TrimTrailingEnds | org_cleaner.py:164-169 | after trimming the text never ends with two blank lines |
| OrgCleaner.NoChangeKeepsAll | org_cleaner.py:137-161 | when no dash was removed and no line dropped, the first loop is the identity |
| OrgCleaner.NoChangesMeansSameLines | org_cleaner.py:185-187 | a change count of 0 means the cleaned lines are the lines read, so leaving the file alone loses nothing |
| OrgCleaner.FirstPass | org_cleaner.py:137-161 | the first loop yields the kept lines, and a count of one per dash removed plus one per line dropped |
| OrgCleaner.TrailingPass | org_cleaner.py:164-169 | the trailing loop yields the trimmed lines and counts one per line popped |
| OrgCleaner.OrgModeCleaner.constructor | org_cleaner.py:17-21 | the two options and the preview flag are stored as given |
| OrgCleaner.OrgModeCleaner.CleanOrgContent | org_cleaner.py:130-171 | the result is the trimmed kept lines joined with `\n`, and the dash, drop and trim counts summed |
| OrgCleaner.OrgModeCleaner.ProcessFile | org_cleaner.py:173-221 | nothing is written when there are no changes; in preview mode nothing is written unless the answer is `y` or `yes`; otherwise the cleaned text is written |
| Headings.HeadingMapKeys | docx_to_org_enhanced.py:147-157 | the table holds exactly `heading N` and `headingN` for N from 1 to 9, each mapped to N |
| Headings.DetectHeadingLevel | docx_to_org_enhanced.py:137-180 | the level is always between 0 and 9 |
| Headings.NameBeforeId | docx_to_org_enhanced.py:160-165 | a style name in the table decides the level, whatever the id says |
| Headings.IdAfterName | docx_to_org_enhanced.py:160-165 | a name outside the table leaves the decision to the id |
| Headings.OffTableLevels | docx_to_org_enhanced.py:169-175 | outside the table, `title` and `subtitle` give level 1 and everything else gives 0 |
| Headings.RegexGroupIsDs | docx_to_org_enhanced.py:169-171 | the pattern, written without backslashes, captures only runs of the letter `d` |
| Headings.DsAreNoNumber | docx_to_org_enhanced.py:169-171 | `int()` of such a capture raises, so the pattern never yields a level |
| Headings.RegexNeedsHeading | docx_to_org_enhanced.py:169-171 | a name the pattern matches contains the `h` of `heading` |
| Headings.HeadingNeedsStyle | docx_to_org_enhanced.py:140-144 | a non-zero level requires a style with both a name and an id |
| Headings.RunFormatting | docx_to_org_enhanced.py:183-223 | bold (and italic) is set exactly when the run, its font or its character style says `True`; `normal` exactly when neither is set |
| Headings.FalseDoesNotOverride | docx_to_org_enhanced.py:193-210 | a `False` on the run does not hide a `True` on its character style |
| BoldSegments.Groups | docx_to_org.py:88-104 | the grouping is empty exactly for no pieces, and the last stretch has the last piece's boldness |
| BoldSegments.GroupsAlternate | docx_to_org.py:88-104 | every stretch holds a piece, and neighbouring stretches differ in boldness |
| BoldSegments.UngroupGroups | docx_to_org.py:88-104 | spreading the stretches back gives the pieces: nothing is lost, added or reordered |
| BoldSegments.AlternatingCounts | docx_to_org_enhanced/docx_to_org_complete.py:292-307 | over alternating stretches the bold and regular counts differ by at most one, and the larger count belongs to the last stretch's kind |
| BoldSegments.PortionCounts | docx_to_org_enhanced/docx_to_org_complete.py:292-307 | the bold and regular part counts differ by at most one |
| BoldSegments.ExtractBoldPortions | docx_to_org.py:81-106 | the accumulator loop returns the joined texts of the bold stretches and of the regular stretches, in order; the same holds for docx_to_org_with_footnotes.py:84-109 |
| BoldSegments.TokenPieceOfRun | docx_to_org_enhanced/docx_to_org_complete.py:282-290 | in the bold path a run's piece is its text followed by only the last of its tokens |
| BoldSegments.ExtractBoldPortionsWithFootnotes | docx_to_org_enhanced/docx_to_org_complete.py:273-309 | the bold and regular parts are those of the runs' texts, each with its last token; the same holds for docx_to_org_complete_new.py:170-206 |
| BoldSegments.PlainPiecesText | docx_to_org_with_footnotes.py:84-109 | the plain pieces together are exactly the paragraph text, with no footnote token |
| BoldSegments.HeadingLines | docx_to_org.py:138-141 | every bold line starts with `** ` and has a non-blank rest |
| BoldSegments.TextLines | docx_to_org.py:143-146 | every regular line is non-blank and already stripped |
| BoldSegments.TextLinesCount | docx_to_org.py:135-146 | each non-blank part gives exactly one line and each blank part none |
| BoldSegments.RegularThenBold | docx_to_org.py:135-146 | a regular piece before a bold one gives the bold line first and the stripped regular line second |
| Lists.MatchLenSound | docx_to_org_complete_new.py:321-322 | what a pattern match finds is a word of the pattern |
| Lists.MatchLenComplete | docx_to_org_complete_new.py:321-322 | every prefix that is a word of a well-formed pattern is found, and none is longer than the greedy match |
| Lists.SubAllSuffix | docx_to_org_complete_new.py:309-322 | removing markers only cuts a prefix off: the rest is a suffix of the text |
| Lists.AllWellFormed | docx_to_org_complete_new.py:313-320 | every cleaning pattern in the three tables is well formed |
| Lists.ApplyPatterns | docx_to_org_complete_new.py:321-322 | the loop applies each pattern in turn to what the earlier ones left |
| Lists.CleanListTextLoop | docx_to_org_complete_new.py:297-324 | the loop computes `clean_list_text`, and its result is already stripped |
| Lists.CleanedIsPiece | docx_to_org_complete_new.py:297-324 | the cleaned text is a contiguous piece of the original text |
| Lists.SubAllNoMatch | docx_to_org_complete_new.py:321-322 | when no pattern matches, the text is left alone |
| Lists.NoMatchFirst | docx_to_org_complete_new.py:313-320 | a text that does not start with a class character matches no pattern of that class |
| Lists.NoMatchShort | docx_to_org_complete_new.py:313-320 | texts shorter than two characters match no marker |
| Lists.MarkerAt | docx_to_org_complete_new.py:313-320 | a marker of class characters, its terminator and one blank, followed by a non-blank character, is matched with exactly that length |
| Lists.TermMismatch | docx_to_org_complete_new.py:313-320 | a class part closed by the wrong character is no match |
| Lists.CleanOfStripped | docx_to_org_complete_new.py:297-324 | on a stripped text whose markers leave a stripped rest, cleaning is exactly the marker removal |
| Lists.DetectFromText | docx_to_org_complete_new.py:260-290 | detection from the text gives level 0 whenever it finds a list |
| Lists.DetectFromTextOrdered | docx_to_org_complete_new.py:274-286 | a text with a numbered marker and no bullet is detected as an ordered item |
| MarkerExamples.StackedMarkersRemoved | docx_to_org_complete_new.py:321-322 | markers stack: `1. a. x` is cleaned to `x` |
| MarkerExamples.RomanParenMatches | docx_to_org_enhanced/docx_to_org_complete.py:385 | `IV) ` matches the upper-case roman pattern closed by `)` and none of the patterns before it |
| MarkerExamples.RomanParenRemoved | docx_to_org_enhanced/docx_to_org_complete.py:423 | the standard patterns clean `IV) x` to `x` |
| MarkerExamples.RomanParenKept | docx_to_org_enhanced.py:332-339 | the enhanced patterns leave `IV) x` unchanged, because their last roman pattern expects `.` |
| MarkerExamples.RomanParenNoEnhancedMatch | docx_to_org_enhanced.py:332-339 | none of the enhanced patterns matches `IV) x` |
| MarkerExamples.RomanParenDetected | docx_to_org_enhanced.py:300 | `IV) x` is detected as an ordered item |
| ListDetection.DetectList | docx_to_org_complete_new.py:208-295 | with parsed levels, a detected item always has an integer level; the same holds for docx_to_org_enhanced/docx_to_org_complete.py:311-399 |
| ListDetection.StylePrecedes | docx_to_org_complete_new.py:212-228 | a bullet list style gives an unordered item, whatever the numbering record and the text say |
| ListDetection.NumberingDecides | docx_to_org_complete_new.py:243-258 | without a list style the numbering record decides: ordered exactly when it has a `w:numId`, at the parsed level |
| ListDetection.NumberingValue | docx_to_org_complete_new.py:243-258 | a numbering record gives an item at its parsed level, ordered exactly when it has a `w:numId` |
| ListDetection.NumberingStep | docx_to_org_complete_new.py:243-258 | when the style step decides nothing, a numbering record decides |
| ListDetection.StyleWithoutListSkipped | docx_to_org_complete_new.py:212-214 | a style whose name lacks `list` decides nothing |
| ListDetection.NamelessStyleIsNotList | docx_to_org_complete_new.py:292-295 | a style without a name raises inside the cascade, which gives no list |
| ListDetection.TextFallbackLevel | docx_to_org_complete_new.py:260-290 | with neither style nor numbering record only level 0 can come out |
| ListDetection.StringLevelsSkipSuffixRule | docx_to_org_complete_new.py:218-228 | a level read from the style's XML stays a string, so the `== 0` suffix rule never applies to it |
| ListDetection.IntLevelsSuffixRule | docx_to_org_enhanced/docx_to_org_complete.py:321-331 | with parsed levels, level 0 on a `... 2` bullet style becomes level 1 |
| ListNumbering.Repeat | docx_to_org_complete_new.py:326-341 | `s * n` is `n` copies of `s`, and nothing for `n <= 0` |
| ListNumbering.ListPrefixShape | docx_to_org_complete_new.py:326-341 | the prefix is `2 * level` spaces, then `-`, `+` or `*` by level, or the number and `. `, then a space |
| ListNumbering.OtherTypeNoPrefix | docx_to_org_complete_new.py:341 | any other type gives an empty prefix |
| ListNumbering.Resize | docx_to_org_enhanced/docx_to_org_complete.py:703-706 | the stack is cut down to, or padded up to, the wanted height, and its lower entries are kept |
| ListNumbering.ListStep | docx_to_org_enhanced/docx_to_org_complete.py:700-716 | the step succeeds exactly for non-negative levels, keeps the stacks of equal height, and leaves them `level + 1` high |
| ListNumbering.OrderedStepCounts | docx_to_org_enhanced/docx_to_org_complete.py:709-712 | an ordered item takes the counter at its level, which goes up by one; shallower entries stay |
| ListNumbering.ReturnContinuesNumbering | docx_to_org_enhanced/docx_to_org_complete.py:700-712 | going deeper and coming back continues the numbering at the outer level |
| ListNumbering.UnorderedResetsNumbering | docx_to_org_enhanced/docx_to_org_complete.py:713-716 | an unordered item resets its level, so the next ordered item there is numbered 1 |
| ListNumbering.NewDepthStartsAtOne | docx_to_org_enhanced/docx_to_org_complete.py:703-706 | the first ordered item at a new depth is numbered 1 |
| ListNumbering.CountsFromOne | docx_to_org_enhanced/docx_to_org_complete.py:709-712 | items at the same level from a fresh state count 1, 2, 3 |
| Notes.PartNotesExact | docx_to_org_complete_new.py:369-379 | a row is in a part's table exactly when it comes from a kept element of that part |
| Notes.ExtractedNotesWellFormed | docx_to_org_complete_new.py:369-379 | every row has an id other than `""` and `"0"` and a non-empty, stripped text |
| Notes.ExtractedFromSomePart | docx_to_org_complete_new.py:343-472 | every row comes from some parsed part |
| Notes.ExtractNotesAppend | docx_to_org_complete_new.py:343-472 | the rows of consecutive blocks follow the blocks' order |
| Notes.BlockStopsAtFailure | docx_to_org_complete_new.py:351-381 | a part that does not parse abandons the rest of its block |
| Notes.TwoRoutesTable | docx_to_org_complete_new.py:343-472 | footnote rows come before endnote rows, which come before the relationship rows, and a part reached by two routes is read twice |
| Notes.FirstIndex | docx_to_org_complete_new.py:506-510 | the position found is the first row with the id, and none is found exactly when no row has it |
| Notes.LookUpNote | docx_to_org_complete_new.py:506-510 | the lookup loop gives the 1-based number of the first row with the id |
| Notes.RefTokenResolves | docx_to_org_complete_new.py:500-516 | a reference yields a token exactly when it is a footnote reference with a known id, numbered by the first matching row |
| Notes.EndnoteRefsYieldNothing | docx_to_org_complete_new.py:500 | endnote references never yield a token |
| Notes.TokensForReferences | docx_to_org_complete_new.py:488-520 | the markers of run `j` are exactly that run's tokens, in order |
| Notes.RunMarkers | docx_to_org_complete_new.py:502-516 | one run's loop yields that run's tokens tagged with its index |
| Notes.FindFootnoteReferences | docx_to_org_complete_new.py:488-520 | the scan yields, run by run, each resolvable reference's token; the same holds for docx_to_org_with_footnotes.py:266-298, docx_to_org_enhanced/docx_to_org_complete.py:602-634 |
| Notes.NoMarkersNoTokens | docx_to_org_complete_new.py:526-527 | with no reference the spliced text is the plain paragraph text |
| Notes.SplicedTextInterleaves | docx_to_org_complete_new.py:522-549 | splicing puts each run's text and then that run's tokens, run by run |
| Notes.SpliceWithoutNotes | docx_to_org_complete_new.py:526-527 | with an empty table the spliced text is the paragraph text |
| Notes.RunTokens | docx_to_org_complete_new.py:535 | the filter picks exactly the tokens of run `i` |
| Notes.ProcessTextWithFootnotes | docx_to_org_complete_new.py:522-549 | the method yields each run's text followed by its tokens; the same holds for docx_to_org_with_footnotes.py:300-327, docx_to_org_enhanced/docx_to_org_complete.py:636-663 |
| Notes.LastTokenForIsLast | docx_to_org_enhanced/docx_to_org_complete.py:282-290 | the run-index map keeps the last of a run's markers |
| Notes.BoldPathKeepsLastToken | docx_to_org_enhanced/docx_to_org_complete.py:282-290 | in the bold path a run carries only the last of its own tokens |
| Notes.DetectTextReferences | docx_to_org_with_footnotes.py:245-264 | the finds are the digit runs, then the note symbols, each in the order found |
| Notes.DigitRunsOfNumber | docx_to_org_with_footnotes.py:249-262 | a text that is one decimal number reports just that number |
| Notes.DigitRunsOfDigits | docx_to_org_with_footnotes.py:249-262 | a text made only of digits is one run, read as a decimal number, leading zeros included |
| Notes.DigitRunsSplit | docx_to_org_with_footnotes.py:249-262 | a non-digit separates runs: the runs of `a`, the non-digit, then `b` are the runs of `a` followed by those of `b` |
| Notes.TextReferencesShape | docx_to_org_with_footnotes.py:249-262 | the symbols reported occur in the text, and a text without digits reports no number |
| Converter.ParagraphStep | docx_to_org_enhanced/docx_to_org_complete.py:682-750 | a step keeps the stacks balanced, and the variants without lists never change the state |
| Converter.BlankParagraphSkipped | docx_to_org_enhanced/docx_to_org_complete.py:687-690 | a blank paragraph emits nothing and leaves the list state alone; the same holds for docx_to_org_with_footnotes.py:351-354, docx_to_org.py:124-127 |
| Converter.ListItemHeights | docx_to_org_enhanced/docx_to_org_complete.py:700-706 | after an item at level `L` both stacks hold exactly `L + 1` entries |
| Converter.ProseClearsStacks | docx_to_org_enhanced/docx_to_org_complete.py:722-725 | a non-blank paragraph that is not a list item empties both stacks and emits its prose lines |
| Converter.CenteredKeepsTokens | docx_to_org_with_footnotes.py:357-359 | a centered paragraph is one `* ` line of the stripped spliced text, tokens included; the same holds for docx_to_org_enhanced/docx_to_org_complete.py:728-730 |
| Converter.BoldLinesOrder | docx_to_org_enhanced/docx_to_org_complete.py:733-745 | every `** ` line comes before every regular line, regular lines are stripped and non-blank, and the part counts differ by at most one; the same holds for docx_to_org.py:135-146 |
| Converter.HeadingsThenText | docx_to_org.py:135-146 | the heading lines come first, then the stripped text lines |
| Converter.BoldPathDropsTokens | docx_to_org_with_footnotes.py:362-373 | the bold path's lines do not depend on the note table: they come from the bare run texts |
| Converter.RegularThenBoldParagraph | docx_to_org_enhanced/docx_to_org_complete.py:733-745 | a regular run before a bold run with a resolved reference gives `** ` and the bold text with its token, then the stripped regular text; the same holds for docx_to_org_with_footnotes.py:362-373 |
| Converter.TwoRunPieces | docx_to_org_enhanced/docx_to_org_complete.py:282-290 | the pieces of a regular run and a bold run carrying one resolved reference |
| Converter.BoldProse | docx_to_org_enhanced/docx_to_org_complete.py:728-746 | a paragraph that is not centered and has a bold run takes the bold path |
| Converter.BasicIsWithFootnotesWithoutNotes | docx_to_org.py:121-151 | the basic converter handles a paragraph as the with-footnotes one does with an empty table |
| Converter.StringLevelFails | docx_to_org_complete_new.py:566-573 | a bullet style with a `w:ilvl` in its XML makes the paragraph, and so the conversion, fail with `TypeError` |
| Converter.NoteLines | docx_to_org_complete_new.py:669-670 | there is one trailer line per row |
| Converter.NoteLinesAt | docx_to_org_complete_new.py:669-670 | line `i` is `[fn:i+1]`, then the row's text |
| Converter.TrailerShape | docx_to_org_complete_new.py:666-670 | the trailer exists exactly when the table has rows: an empty entry, `* Footnotes`, then the numbered rows in order; the same holds for docx_to_org_with_footnotes.py:421-425, docx_to_org_enhanced/docx_to_org_complete.py:812-816 |
| Converter.TrailerLines | docx_to_org_complete_new.py:666-670 | the trailer loop computes the trailer |
| Converter.BasicHasNoTrailer | docx_to_org.py:108-119 | the basic converter's output is its paragraph lines joined, never with a trailer |
| Converter.HasBoldRun | docx_to_org_enhanced/docx_to_org_complete.py:239-244 | the loop says yes exactly when some run is bold |
| Converter.EmitPortions | docx_to_org_enhanced/docx_to_org_complete.py:737-745 | the two output loops give the heading lines and then the text lines |
| Converter.EmitHeadings | docx_to_org_enhanced/docx_to_org_complete.py:738-740 | the loop gives a `** ` line for each non-blank bold part |
| Converter.EmitTexts | docx_to_org_enhanced/docx_to_org_complete.py:743-745 | the loop gives a stripped line for each non-blank regular part |
| Converter.DocxToOrgConverter.constructor | docx_to_org_enhanced/docx_to_org_complete.py:28-34 | the table and both stacks start empty |
| Converter.DocxToOrgConverter.ExtractFootnotesFromXml | docx_to_org_enhanced/docx_to_org_complete.py:447-565 | the extraction appends the rows of every block to the table and leaves the stacks alone; the same holds for docx_to_org_complete_new.py:343-472 |
| Converter.DocxToOrgConverter.AppendBlockNotes | docx_to_org_complete_new.py:351-381 | one `try` block appends its parts' rows until a part does not parse |
| Converter.DocxToOrgConverter.AppendPartNotes | docx_to_org_complete_new.py:369-379 | the element loop appends one row per kept element |
| Converter.DocxToOrgConverter.StepList | docx_to_org_enhanced/docx_to_org_complete.py:700-716 | the stack work updates the fields as the list step says and returns its item number or its error |
| Converter.DocxToOrgConverter.ProcessParagraph | docx_to_org_enhanced/docx_to_org_complete.py:682-750 | the paragraph's lines and the new stacks are those of the paragraph step, or its error; the same holds for docx_to_org_complete_new.py:551-619, docx_to_org_with_footnotes.py:346-378, docx_to_org.py:121-151 |
| Converter.DocxToOrgConverter.ProseOf | docx_to_org_enhanced/docx_to_org_complete.py:722-748 | the centered, bold and plain branches give the prose lines |
| Converter.DocxToOrgConverter.Convert | docx_to_org_enhanced/docx_to_org_complete.py:758-832 | the output is the paragraph lines and the trailer joined with two line breaks, or nothing when a paragraph fails; the table is then the extracted notes; the same holds for docx_to_org_complete_new.py:621-686, docx_to_org_with_footnotes.py:386-436, docx_to_org.py:153-187 |
| Converter.DocxToOrgConverter.ProcessParagraphs | docx_to_org_enhanced/docx_to_org_complete.py:807-809 | the loop succeeds exactly when every paragraph does, and then yields all their lines in order |
| SimpleConverter.PartLinesExact | docx_to_org_simple.py:32-40 | a line exists exactly for each kept element and carries that element's own id |
| SimpleConverter.CollectPartLines | docx_to_org_simple.py:32-40 | the element loop yields those lines |
| SimpleConverter.TextPartsNonEmpty | docx_to_org_simple.py:35-39 | the joined texts are non-empty exactly when one text is |
| SimpleConverter.ElementTextParts | docx_to_org_simple.py:35-38 | the text loop keeps the non-empty texts, whose join is that of all texts |
| SimpleConverter.ExistingOutputRefused | docx_to_org_simple.py:14-15 | an existing output file without overwrite refuses the conversion and writes nothing |
| SimpleConverter.HeadingTenIsTopLevel | docx_to_org_simple.py:51-52 | `heading 10` contains `heading 1` and so becomes a top-level heading |
| SimpleConverter.SimpleLinesShape | docx_to_org_simple.py:46-59 | there are at most as many lines as paragraphs, none is empty, and each is the one line of some paragraph |
| SimpleConverter.CollectLines | docx_to_org_simple.py:46-59 | the paragraph loop yields the paragraphs' lines, or the first error |
| SimpleConverter.ParagraphLines | docx_to_org_simple.py:47-59 | one paragraph's lines: none for a blank text, else the heading prefix and the stripped text |
| SimpleConverter.SimpleLinesErr | docx_to_org_simple.py:46-59 | once a paragraph fails, the whole conversion fails with that error |
| SimpleConverter.CollectNotes | docx_to_org_simple.py:21-42 | the footnote loops yield the kept lines part by part, the first failure ending them |
| SimpleConverter.ConvertDocxToOrg | docx_to_org_simple.py:11-79 | the conversion refuses an existing output, and otherwise joins the body, the footnote block and the notes, or reports the first error |
| Selection.Tokens | file_opener.py:79 | a reply always splits into at least one token |
| Selection.AllPickedExact | file_opener.py:79-92 | a reply is accepted exactly when every token names an entry, which then come one per token in the order typed |
| Selection.RejectionPersists | file_opener.py:85-92 | once a prefix of the tokens is rejected, the whole reply is |
| Selection.ParseAll | file_opener.py:80-92 | the loop with its `valid` flag computes the all-or-nothing pick |
| Selection.SelectFilesReturns | file_opener.py:62-99 | a list is returned exactly for a non-blank reply other than `back` whose numbers are all in range; `back` returns nothing |
| Selection.SelectFiles | file_opener.py:62-99 | one reply to `select_files`; the same holds for file_opener_copy.py:130-167 |
| Selection.SomePickedEmpty | finder/file_opener_3.py:51-57 | nothing is picked exactly when no token names an entry |
| Selection.SomePickedFirst | finder/file_opener_3.py:51-56 | the first entry picked is named by the first token that names one |
| Selection.LenientAgreesWithStrict | finder/file_opener_3.py:51-57 | where the strict prompt accepts a reply, the lenient one picks the same entries |
| Selection.ParseSome | finder/file_opener_3.py:51-56 | the loop appends what a token names and skips the rest |
| Selection.SelectPathsNone | finder/file_opener_3.py:44-59 | a non-blank reply returns nothing exactly for `back` or when no number is in range |
| Selection.SelectPaths | finder/file_opener_3.py:44-59 | one reply to `select_paths` |
| Selection.FirstDirectoryChosen | finder/file_opener_3.py:134-137 | the directory searched is the one named by the first number in range |
| DocumentFiles.TablesAreLowerCase | file_opener.py:9-17 | both tables are lower case, so lowering their entries changes nothing |
| DocumentFiles.CheckDocumentFile | file_opener.py:31-47 | the inline test, with its flag loop, decides the document test; the same holds for file_opener_copy.py:88-106, finder/file_opener_3.py:16-28, finder/file_opener_tuo_copy.py:35-47, finder/file_opener_tuo_copy_copy.py:35-47 |
| DocumentFiles.CaseInsensitive | file_opener_copy.py:93-106 | the test depends only on the lowered path |
| DocumentFiles.BackupOfDocument | file_opener_copy.py:93-106 | every backup copy of a document extension is a document |
| DocumentFiles.PlainDocumentHasExtension | file_opener_copy.py:93-106 | a document that is not a backup has a document extension |
| DocumentFiles.UpperCaseExtension | file_opener_copy.py:93 | `Report.PDF` is a document |
| DocumentFiles.TildeBackup | file_opener_copy.py:96-104 | `notes.txt~` is a document |
| DocumentFiles.OutputLinesShape | file_opener.py:26 | every output line is non-empty and stripped |
| DocumentFiles.DocumentsExact | file_opener.py:30-48 | a path is kept exactly when it is an output line and a document |
| DocumentFiles.DocumentsInOrder | file_opener.py:47-48 | kept paths keep the output's order |
| DocumentFiles.KeepDocuments | file_opener.py:30-48 | the filter loop keeps the documents |
| DocumentFiles.ExitCodeOneIsEmpty | file_opener.py:52-60 | exit code 1 is an empty result without an error; only other failures report one, and any failure finds nothing |
| DocumentFiles.SearchFiles | file_opener.py:19-60 | the search gives the filtered output lines on success and the error cases otherwise |
| DocumentFiles.FoldersComeLast | file_opener_copy.py:36-45 | in folders-only mode the filtered file matches come first, then every directory match unfiltered |
| DocumentFiles.FullPathKeeps | file_opener_copy.py:53-61 | in full-path mode a non-file is always kept and a file only if it passes the type filter |
| DocumentFiles.NamesSearchIsFirstScript | file_opener_copy.py:62-74 | the name search for documents is the first script's search |
| DocumentFiles.FoldersNeedBothRuns | file_opener_copy.py:25-45 | in folders-only mode a failure of either run finds nothing, and is reported unless it is exit code 1 |
| SearchResults.SortFacts | file_opener_copy.py:238 | sorting gives an ascending permutation of the input; the same holds for file_opener.py:155 |
| SearchResults.SortedSetsEqual | finder/file_opener_3.py:91 | two ascending lists without repeats holding the same strings are equal |
| SearchResults.SortedSetFacts | finder/file_opener_3.py:91 | `sorted(list(set(..)))` is ascending, without repeats, and holds exactly the input's strings; the same holds for finder/file_opener_tuo_copy.py:121 |
| SearchResults.DedupFacts | finder/file_opener_tuo_copy.py:198-203 | de-duplication leaves no repeat and keeps the same strings |
| SearchResults.DedupOfNoDup | finder/file_opener_tuo_copy.py:198-203 | a list without repeats is left as it is |
| SearchResults.UniqueInOrder | finder/file_opener_tuo_copy.py:198-203 | the `seen` loop keeps the first occurrences in order; the same holds for finder/file_opener_tuo_copy_copy.py:361-366 |
| SearchResults.SortedSetIdempotent | finder/file_opener_tuo_copy.py:204 | sorting the de-duplicated results again changes nothing |
| SearchResults.GrepKeptMembers | finder/file_opener_3.py:84-90 | a match is kept exactly when the filter keeps it |
| SearchResults.SearchWithGrepExact | finder/file_opener_3.py:84-91 | the result is ascending, without repeats, and holds exactly the kept matches |
| SearchResults.NoFoldersUnlessAsked | finder/file_opener_3.py:89-90 | without the folder option only files come out |
| SearchResults.FilterGrepMatches | finder/file_opener_3.py:70-94 | the loop and sort compute the grep search |
| SearchResults.OwnFilesDocs | finder/file_opener_tuo_copy.py:55-59 | a directory's own documents are its files with the document filter |
| SearchResults.WalkDocs | finder/file_opener_tuo_copy.py:49-62 | the document walk is the full walk filtered |
| SearchResults.HiddenFileIgnored | finder/file_opener_tuo_copy.py:56 | a hidden file never shows in a walk |
| SearchResults.HiddenDirIgnored | finder/file_opener_tuo_copy.py:54 | a hidden directory, whatever it holds, never shows in a walk |
| SearchResults.FileMatchesMembers | finder/file_opener_tuo_copy.py:113-116 | a match is kept exactly when it is a file that passes the type filter |
| SearchResults.ContentsOfMembers | finder/file_opener_tuo_copy.py:194-196 | the folder contents are exactly the walked files of the matched folders |
| SearchResults.CollectContents | finder/file_opener_tuo_copy.py:194-196 | the collecting loop appends those contents |
| SearchResults.SearchMultipleExact | finder/file_opener_tuo_copy.py:179-206 | in every mode the result is ascending, without repeats, and holds exactly the expected paths |
| SearchResults.SearchWithGrepMultipleDirs | finder/file_opener_tuo_copy.py:179-206 | the method computes the multi-directory search |
| SearchResults.PickerSearchAgrees | finder/file_opener_tuo_copy_copy.py:349-367 | the picker's version of the search agrees with the other script's on every input |
| SearchResults.SortedBeforeNumbering | file_opener_copy.py:235-238 | the numbered list is an ascending permutation of what was assembled |
| FinderScreens.ToggleFacts | finder/file_opener_tuo_copy_copy.py:396-406 | a click flips that row only, and a second click undoes it |
| FinderScreens.AscendingBelowFacts | finder/file_opener_tuo_copy_copy.py:387 | the indices are strictly ascending and are exactly the selected ones below the bound |
| FinderScreens.PickedInOrder | finder/file_opener_tuo_copy_copy.py:387 | confirming returns the selected rows' entries in row order, one per existing row |
| FinderScreens.NothingSelectedNothingPicked | finder/file_opener_tuo_copy_copy.py:386-391 | with no row selected nothing is picked |
| FinderScreens.DirectorySelectScreen.constructor | finder/file_opener_tuo_copy.py:209-216 | the screen starts with no directories, no selection, and the directories chosen before |
| FinderScreens.DirectorySelectScreen.Mount | finder/file_opener_tuo_copy.py:233-244 | mounting lists the folder search, with rows already chosen marked |
| FinderScreens.DirectorySelectScreen.Select | finder/file_opener_tuo_copy.py:246-256 | a click toggles a directory row; a click past them is ignored |
| FinderScreens.DirectorySelectScreen.AddSelected | finder/file_opener_tuo_copy.py:259-262 | the result is the set of the directories chosen before and the rows selected now |
| FinderScreens.DirectorySelectScreen.Clear | finder/file_opener_tuo_copy.py:263-264 | clearing empties the selection only |
| FinderScreens.FileSelectScreen.constructor | finder/file_opener_tuo_copy.py:272-276 | the screen holds the files found and no selection |
| FinderScreens.FileSelectScreen.Select | finder/file_opener_tuo_copy.py:294-301 | a click toggles its row, with no bound check |
| FinderScreens.FileSelectScreen.Open | finder/file_opener_tuo_copy.py:304-308 | a selected row past the list raises; no selection does nothing; otherwise the selected files open in row order |
| FinderScreens.DirectoryPickerScreen.constructor | finder/file_opener_tuo_copy_copy.py:168-172 | the picker starts on the home directory, with no results and no selection |
| FinderScreens.DirectoryPickerScreen.Search | finder/file_opener_tuo_copy_copy.py:209-232 | a blank term changes nothing; otherwise the results replace the list and the selection is cleared |
| FinderScreens.DirectoryPickerScreen.Clear | finder/file_opener_tuo_copy_copy.py:234-238 | clearing empties the results and the selection |
| FinderScreens.DirectoryPickerScreen.Select | finder/file_opener_tuo_copy_copy.py:250-260 | a click toggles a result row; a click past them is ignored |
| FinderScreens.DirectoryPickerScreen.AddSelected | finder/file_opener_tuo_copy_copy.py:240-245 | the selected directories in row order, or nothing when none is selected |
| FinderScreens.FilePickerScreen.constructor | finder/file_opener_tuo_copy_copy.py:265-269 | the picker holds the directories to search, with no results and no selection |
| FinderScreens.FilePickerScreen.Search | finder/file_opener_tuo_copy_copy.py:321-378 | a blank term or no directory changes nothing; otherwise the mode's results replace the list and the selection is cleared |
| FinderScreens.FilePickerScreen.Clear | finder/file_opener_tuo_copy_copy.py:380-384 | clearing empties the results and the selection |
| FinderScreens.FilePickerScreen.Select | finder/file_opener_tuo_copy_copy.py:396-406 | a click toggles a result row; a click past them is ignored |
| FinderScreens.FilePickerScreen.AddSelected | finder/file_opener_tuo_copy_copy.py:386-391 | the selected files in row order, or nothing when none is selected |
| FinderScreens.RemoveAtFacts | finder/file_opener_tuo_copy_copy.py:602-612 | removing an entry removes exactly it and keeps the list free of repeats |
| FinderScreens.MergedFacts | finder/file_opener_tuo_copy_copy.py:614-628 | merging keeps the old entries in front, adds exactly the new ones, and adds no repeat |
| FinderScreens.MergedIsDedup | finder/file_opener_tuo_copy_copy.py:614-628 | merging into a list without repeats is de-duplicating the two lists joined |
| FinderScreens.AppendMissing | finder/file_opener_tuo_copy_copy.py:614-628 | the loop appends each picked entry not yet listed |
| FinderScreens.HomeExpanded | finder/file_opener_tuo_copy_copy.py:501-502 | `~/notes` expands to the `notes` directory of the home directory |
| FinderScreens.MainScreen.constructor | finder/file_opener_tuo_copy_copy.py:411-415 | the directory list starts with the author's home directory and the file list empty |
| FinderScreens.MainScreen.AddManualDir | finder/file_opener_tuo_copy_copy.py:495-519 | a blank entry, a missing directory or one already listed changes nothing; otherwise the expanded path is appended |
| FinderScreens.MainScreen.AddManualFile | finder/file_opener_tuo_copy_copy.py:521-545 | the same for files |
| FinderScreens.MainScreen.Remove | finder/file_opener_tuo_copy_copy.py:597-612 | a click removes exactly the clicked entry of the clicked list; a click past the entries does nothing |
| FinderScreens.MainScreen.PickFiles | finder/file_opener_tuo_copy_copy.py:553-557 | the file picker opens on the chosen directories, only when there is one |
| FinderScreens.MainScreen.DirsPicked | finder/file_opener_tuo_copy_copy.py:614-620 | the picked directories not yet listed are appended in order |
| FinderScreens.MainScreen.FilesPicked | finder/file_opener_tuo_copy_copy.py:622-628 | the picked files not yet listed are appended in order |
| FinderScreens.MainScreen.ClearAll | finder/file_opener_tuo_copy_copy.py:587-592 | both lists are emptied |
| FinderScreens.MainScreen.OpenSelected | finder/file_opener_tuo_copy_copy.py:559-585 | nothing opens without files, without a program, or when `which` does not find it; otherwise every selected file goes to the program |

## Left out

- File reading and writing, subprocess calls and their exceptions: the results of `fd`, `grep`, `find` and `fzf` are inputs to the model. The fuzzy and exact modes only change what those programs print.
- `os.walk` is an input directory tree; `os.path.isfile` and `isdir` are input sets of paths.
- A search directory that raises is skipped by the screen scripts; the model takes each directory's matches as given, so the skipping is not modelled.
- `~user` expansion uses a given map from users to homes. The password-database fallback when `HOME` is unset is not modelled.
- The `input()` loops of the prompts are modelled one reply at a time. Unicode `isdigit` is modelled on ASCII digits, and the `ValueError` branch of `select_paths` cannot be reached with them.
- `ask_what_to_remove` and the command-line arguments of `org_cleaner.py` become the cleaner's constructor options. The preview listing is printing only.
- The order of `list(set(...))` is unspecified in Python. The model lists such sets sorted; `SearchResults.SortedSetsEqual` shows that the sorted result the scripts return does not depend on that order.
- FinderScreens.DirectorySelectScreen.AddSelected: the result is stated as a set, because the source builds it with `list(set(...))`, so its order is left out.
- The Textual UI: widgets, notifications, styling, a `ListView` index of `None`, and the Back buttons, which are modelled as a `None` result.
- FinderScreens.MainScreen.OpenSelected: the count of `Popen` launches and their exceptions are not modelled; `which` is the given set of programs on the path.
- The `FileOpenerApp` class of `finder/file_opener_tuo_copy.py` (lines 312-600) is screen wiring and is not part of this model.
- XML and `.docx` parsing: documents arrive as datatypes.
- Regular expressions are written out as explicit marker patterns.
- OrgStrings.IsDigit, Lists.InClass, Notes.DigitRuns, OrgStrings.ParseInt: Python's `\d` and `int()` accept every Unicode decimal digit, and `int()` also accepts `_` between digits; the model takes the ASCII digits `0`-`9` only (the `DigitClass` case of `Lists.InClass` stands for `\d`). A marker such as `٣.` or a note number written in non-ASCII digits is therefore not recognised by the list patterns (`docx_to_org_complete_new.py` lines 276-277 and 314-315, `docx_to_org_enhanced/docx_to_org_complete.py` lines 380-381 and 418-419) or by the text scans (`docx_to_org_enhanced/docx_to_org_complete.py` line 586, `docx_to_org_with_footnotes.py` line 250).
- `lower()` covers ASCII letters only, and `splitlines()` splits on `\n` only. `strip()` uses Python's whitespace set, and the texts of `str(e)` messages are reduced to their kind.
- The conflict-resolution modes and output-directory creation of `convert_docx_to_org` are not modelled.
- `docx_to_org_enhanced.py` does not parse as written, so only the logic of its heading, run-formatting and list-cleaning functions is modelled.
- Batch conversion, threads, the pandoc scripts, the debug scripts and the note-taking apps are not part of this model.
- The diagnostic printing of text references in `docx_to_org_enhanced/docx_to_org_complete.py` (lines 797-802) is not modelled; the scan itself is `Notes.DetectTextReferences`.
