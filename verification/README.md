# Patches, packing, publishing and run life cycles of the review system

A Dafny model of the algorithmic core of the code review system: the pr-agent
package that rewrites unified diffs and packs them into prompts, the worker that
parses them, publishes comments and keeps the tables of runs and findings, and
the prompt library that frames untrusted text.  Code that works by loops and
updates is a method or a class with the same loops and fields; what a loop
computes is a function, and the theorems are lemmas about that function and about
whole runs.

| file | what it models |
|---|---|
| Basics | optional values, calls that raise, subsequences, the step of list-building loops |
| UnifiedDiff | lines, hunks, patch text, and what makes a patch turn one file into another (POSIX.1-2017, `diff`, "Diff -u or -U Output Format") |
| PatchExtension, PatchExtensionProofs, LeadingContext | extending hunks with context from the original file |
| PatchNumbering, NumberedBlocks | printing line numbers, and reading back what was printed |
| ExtendThenNumber, ExtendWithoutFile | printing line numbers after the extension, with the new file and without it |
| HunkParsing | the worker's reader of the same patches |
| PatchPosition | patch positions and absolute lines |
| LineSelection, SelectedSides | selecting a line range from a patch, on either side |
| StrangeLines | lines that no well-formed patch has, in every reader |
| DeletionTrimming | dropping hunks that only delete |
| FailingPatches | patches on which promises about them fail |
| MultiDiffPacking, CompressedDiff | the two packers of patches under a token limit |
| InlinePublishing, InlinePublishingProofs, PublishingReports, CommentRecording | publishing inline comments exactly once under retries, and recording what was published |
| ReviewLifecycle, ReviewRows, ReviewAlone | review runs under every interleaving, their rows, and a job that is alone |
| FindingLifecycle, ScanRuns | scan runs and findings under every interleaving, and a scan that is alone |
| PromptDelimiters | framing and escaping untrusted text in a prompt |
| WorkspacePlanning | choosing the files of a codebase scan |
| FindingDedup | dropping findings already reported |
| SuggestionRelocation | moving code suggestions into hunks |

Where the code differs from what its documentation says, the model follows the
code and a theorem says when the promise holds:

- Numbers printed after extending a patch are true exactly when the new file
  repeats the trailing lines taken from the original file.  Hunks with an empty
  side, and hunks closer together than the trailing context, break this
  (`ExtendThenNumber`).  Without the new file the leading lines must be repeated too,
  and a hunk near the start of the file can be numbered off (`ExtendWithoutFile`).
- When leading context is given up, the header keeps its bare sizes although
  trailing context is still appended, so it no longer counts its lines; that
  happens exactly when the start of the file clamps the two sides differently
  (`PatchExtensionProofs`).
- A no-newline marker counts as a line when positions are translated, so absolute
  lines behind it in its hunk are one too high, and a marker behind nothing but
  deletions can share its line with an earlier hunk (`PatchPosition`).
- `omit_deletion_hunks` keeps a hunk that only deletes when a later hunk adds; its
  documentation says such hunks are omitted (`DeletionTrimming`).
- The check before publishing is made once, before the first post.
  `docs/WEBHOOK_IDEMPOTENCY.md` (lines 35 and 45-48) promises that a superseded run
  never publishes; a supersede between the check and the post defeats that.  The
  check's own UPDATE is unguarded, and can supersede a run that another job has
  just found publishable (`ReviewLifecycle`).
- Two scans of one repository at once can close a finding that one of them
  observed; that happens exactly to the findings on which they disagree.  A user who
  resolves an observed finding behind its last upsert, or opens another behind the
  sweep, is not corrected by the scan; after any other user action the completed scan
  leaves the finding right (`FindingLifecycle`).
- With a prompt within the hard threshold, the hard stop of the compressed packer can
  lose files without a trace exactly when a patched file is wrapped at a cost above
  the distance of the two thresholds and another patched file stands behind it
  (`CompressedDiff`).
- Comments with one path, line and body are matched by rank.  If two missing comments
  share these but not their finding, and GitHub lists the new review with the two
  exchanged, a retry gives each finding the other's comment; it then posts nothing and
  cannot be recorded.  Where no two do, no listing can cause this
  (`PublishingReports`, `CommentRecording`).
- A suggestion that encloses a hunk on both sides is posted unmoved, in no hunk
  (`SuggestionRelocation`).

`FailingPatches` gives inputs for the failures of the second, third and fourth item,
and one that starts at line 0, where the extension slices the file from its end; the
others stand beside their theorems.

Every lemma switches automatic induction off: its body is its whole proof.
`dafny verify dfyconfig.toml` checks the whole project.

## Model

| member | source | states |
|---|---|---|
| UnifiedDiff.PatchApplies | pr-agent/pr_agent/algo/git_patch_processing.py:190-214 | the reference meaning of a well-formed patch: applying its hunks to the old file gives the new file; every theorem about patches assumes this well-formedness |
| PatchExtension.FindSectionLine | pr-agent/pr_agent/algo/git_patch_processing.py:107-121 | the search for the section header stops at the first leading line that contains it, or after the last |
| PatchExtension.FindMiniMatch | pr-agent/pr_agent/algo/git_patch_processing.py:136-146 | the loop finds the smallest index from which both leading lists have an equal suffix |
| PatchExtension.SearchDynamicContext | pr-agent/pr_agent/algo/git_patch_processing.py:101-126 | dynamic context succeeds exactly when the lines from the section header on agree in both files, and then shifts all four numbers alike |
| PatchExtension.CheckLeadingContext | pr-agent/pr_agent/algo/git_patch_processing.py:131-155 | leading lines are kept if equal, cut to a common suffix, or given up with the bare header restored |
| PatchExtension.ProcessHeader | pr-agent/pr_agent/algo/git_patch_processing.py:84-168 | one header in every branch: invalid hunk, no context asked, dynamic, plain, section removed |
| PatchExtension.ProcessPatchLines | pr-agent/pr_agent/algo/git_patch_processing.py:61-188 | the loop over the patch lines, with context owed to the hunk before, computes the function Extended |
| PatchExtensionProofs.ExtendsHunkByHunk | pr-agent/pr_agent/algo/git_patch_processing.py:74-188 | on the text of a hunk list the line loop yields the text of the widened hunks, with the trailing context of one iteration put where its hunk ends |
| PatchExtensionProofs.PlacedIsValid | pr-agent/pr_agent/algo/git_patch_processing.py:190-214 | a hunk that shows the file at its start line passes the first-line check |
| PatchExtensionProofs.WindowShape | pr-agent/pr_agent/algo/git_patch_processing.py:88-168 | in every branch the rewritten header widens the old one by as many lines as are put before it, which lie just before the hunk in both files, or it is the bare header |
| PatchExtensionProofs.OldSideIsContiguous | pr-agent/pr_agent/algo/git_patch_processing.py:80-98 | the old side of every extended hunk is one contiguous slice of the original file from the rewritten start on, clamped at both ends of the file |
| PatchExtensionProofs.HeaderSizesExactIff | pr-agent/pr_agent/algo/git_patch_processing.py:131-185 | both rewritten sizes equal the lines emitted if and only if the reset did not keep bare sizes while trailing lines were appended, or, without a new file, both starts were clamped alike |
| PatchExtensionProofs.DynamicStartsAtSection | pr-agent/pr_agent/algo/git_patch_processing.py:101-121 | dynamic context, when found, is not empty, is within its limit, starts at a line that shows the section, and is never given up; the section leaves the header |
| PatchExtensionProofs.SectionNotRepeated | pr-agent/pr_agent/algo/git_patch_processing.py:157-162 | without dynamic context the header keeps its section exactly when no leading line shows it |
| PatchExtensionProofs.ResetIff | pr-agent/pr_agent/algo/git_patch_processing.py:135-155 | leading context is given up if and only if no dynamic context was found and the start of the file clamps the two sides differently |
| LeadingContext.LeadingIsLongestAgreement | pr-agent/pr_agent/algo/git_patch_processing.py:128-155 | with the new file and without dynamic context, the lines put before a hunk are the longest run, of at most patch_extra_lines_before lines, that both files have just before it; none if the start of the file leaves fewer on one side |
| LeadingContext.AllLeadingLines | pr-agent/pr_agent/algo/git_patch_processing.py:84-98 | in a patch whose hunks are at least that far apart, all the leading lines there are get put before every hunk |
| LeadingContext.DynamicIff | pr-agent/pr_agent/algo/git_patch_processing.py:101-126 | dynamic context is found if and only if as many lines are reached on both sides, one of them shows the section, and from the first that does the files agree up to the hunk |
| LeadingContext.HeaderWithoutFile | pr-agent/pr_agent/algo/git_patch_processing.py:84-98 | without the new file, the exact header of any hunk, also of one that reaches beyond the file: the sizes end with the file but never fall below the bare ones |
| LeadingContext.DynamicLeading | pr-agent/pr_agent/algo/git_patch_processing.py:101-121 | these lines, and no other, are then put before the hunk, and the section leaves the header |
| LeadingContext.SectionKept | pr-agent/pr_agent/algo/git_patch_processing.py:123-162 | a search for dynamic context that fails leaves the section in the header |
| LeadingContext.MisplacedHunkIsCopied | pr-agent/pr_agent/algo/git_patch_processing.py:190-214 | a hunk whose first context line is not what the file holds at its start, white space at the ends aside, is copied with nothing before or behind it |
| LeadingContext.StripIsCore | pr-agent/pr_agent/algo/git_patch_processing.py:190-214 | stripping leaves the text between the white space at its two ends |
| LeadingContext.FirstLineCheck | pr-agent/pr_agent/algo/git_patch_processing.py:190-214 | which hunks are compared with the file at all: those that start with a line of context, where the file has a line; start 0 means the last line |
| PatchExtensionProofs.HeaderSizesGuard | pr-agent/pr_agent/algo/git_patch_processing.py:131-185 | the exact condition for exact header sizes in terms a caller can read off the header and the file length |
| FailingPatches.HeaderSizesFail | pr-agent/pr_agent/algo/git_patch_processing.py:131-185 | the guard is needed: a family of patches whose second header keeps its bare sizes over the appended trailing lines, for any trailing context and any three or more leading lines |
| PatchExtensionProofs.NewSideContiguousIff | pr-agent/pr_agent/algo/git_patch_processing.py:131-185 | the new side of an extended hunk is a contiguous slice of the new file if and only if the new file repeats the trailing lines taken from the original one |
| PatchExtensionProofs.ExtensionStaysInFiles | pr-agent/pr_agent/algo/git_patch_processing.py:61-188 | over a whole patch with separated hunks every extended hunk shows, on both sides, what the two files hold from its rewritten starts on |
| ExtendThenNumber.ExtendedHeadersExactIff | pr-agent/pr_agent/algo/git_patch_processing.py:80-185 | the two header theorems over all hunks of a well-formed patch, from the patch alone |
| PatchNumbering.PrintNewHunk | pr-agent/pr_agent/algo/git_patch_processing.py:366-369 | the k-th line of the new side is printed with the number start + k |
| PatchNumbering.PrintHunk | pr-agent/pr_agent/algo/git_patch_processing.py:358-373 | the numbered new side and the old side of one hunk, in this order, as the function Printed has them; what a reader finds in it is NumberedBlocks.BlocksOfRendered |
| PatchNumbering.ConvertToNumberedHunks | pr-agent/pr_agent/algo/git_patch_processing.py:344-411 | the numbering loop, its skipped and dropped lines and the unreadable header that raises, computes the function Number |
| PatchNumbering.NumberOfRendered | pr-agent/pr_agent/algo/git_patch_processing.py:344-411 | numbering the text of a hunk list prints exactly one block a hunk, whether or not empty lines separate the hunks; a last hunk without new lines is not printed |
| NumberedBlocks.BlocksOfRendered | pr-agent/pr_agent/algo/git_patch_processing.py:344-411 | a reader that knows nothing of the printing reads back one block a hunk, in order: the header, the new side numbered from its start if the hunk changes anything, the old side if it deletes; left out are hunks that show no line, and the last if it shows no new one |
| NumberedBlocks.MentionsAreLeftOut | pr-agent/pr_agent/algo/git_patch_processing.py:352-353 | lines that hold the no-newline phrase, in small or capital letters, are left out of what is printed |
| NumberedBlocks.PreambleIsNumbered | pr-agent/pr_agent/algo/git_patch_processing.py:355-384 | lines in front of the first header are printed as a hunk without a header, numbered from -1 on, if there is an added or deleted one among them; the hunks are printed as if they were not there |
| SelectedSides.NumberRaisesIff | pr-agent/pr_agent/algo/git_patch_processing.py:355-384 | the numbering raises if and only if some header cannot be read and does not hold the phrase |
| StrangeLines.NumberedAsContext | pr-agent/pr_agent/algo/git_patch_processing.py:396-404 | empty lines and lines with no known prefix are printed as context is; only an empty line that ends a hunk is dropped |
| PatchNumbering.EntriesTruthfulIff | pr-agent/pr_agent/algo/git_patch_processing.py:366-369 | all printed numbers are line numbers of the file if and only if every hunk that changes something shows the file from its start on |
| ExtendThenNumber.ExtendThenNumberIsTruthfulIff | pr-agent/pr_agent/algo/git_patch_processing.py:61-411 | extend then number, in every branch: every printed number is the number of that line in the new file if and only if nothing was extended or the new file repeats, after every changing hunk, the trailing lines taken from the original file |
| ExtendThenNumber.ExtendThenNumberIsTruthful | pr-agent/pr_agent/algo/git_patch_processing.py:61-411 | hunks at least as far apart as the trailing context and no empty side are enough; a patch that is not extended needs neither |
| ExtendThenNumber.EmptyOldSideMisnumbers | pr-agent/pr_agent/algo/git_patch_processing.py:80-82 | the condition is needed: an insertion with an empty old side repeats the line before it under a wrong number, for all texts and any trailing context |
| ExtendThenNumber.EmptyNewSideMisnumbers | pr-agent/pr_agent/algo/git_patch_processing.py:181-185 | the same for a deletion with an empty new side |
| ExtendThenNumber.NarrowGapMisnumbers | pr-agent/pr_agent/algo/git_patch_processing.py:80-82 | the same for hunks closer together than the trailing context |
| ExtendWithoutFile.TruthfulWithoutFileIff | pr-agent/pr_agent/algo/git_patch_processing.py:61-411 | the same without the new file, when the leading context is not checked: all numbers are true if and only if nothing was extended or the new file shows, around every changing hunk, the lines taken from the original file at the numbers they are printed under |
| ExtendWithoutFile.RepeatsAroundIff | pr-agent/pr_agent/algo/git_patch_processing.py:80-98 | where the start of the file clamps both sides alike, that means the files agree just before and just behind the hunk |
| ExtendWithoutFile.TruthfulWithoutFile | pr-agent/pr_agent/algo/git_patch_processing.py:61-411 | no empty side and gaps as wide as the context on either side are enough; the starts are then clamped alike |
| FailingPatches.WithoutFileMisnumbers | pr-agent/pr_agent/algo/git_patch_processing.py:80-98 | the clamping matters: a family of patches whose replaced line gets a wrong number without the new file |
| FailingPatches.StartZeroFails | pr-agent/pr_agent/algo/git_patch_processing.py:84-98 | starts of at least one are needed: inserting before the first line with no line of context, without the new file, gives a header of negative size over all lines of the file but the last |
| HunkParsing.ParsePatchHunks | apps/worker/firmcode_worker/pipeline.py:1288-1330 | the loop that fills the last hunk in place computes the function ParseFrom |
| HunkParsing.ParsingUndoesPrinting | apps/worker/firmcode_worker/pipeline.py:1288-1330 | parsing the text of a hunk list gives the hunks back, less the no-newline markers |
| HunkParsing.SidesNumberedFromStart | apps/worker/firmcode_worker/pipeline.py:1307-1328 | on either side the k-th line of a hunk has the number start + k |
| HunkParsing.ChangedAreTheAdded | apps/worker/firmcode_worker/pipeline.py:1109-1114 | changed_new_lines holds exactly the positions of the added lines |
| HunkParsing.ChangedIncrease | apps/worker/firmcode_worker/pipeline.py:1109-1114 | on a well-formed patch changed_new_lines is strictly increasing |
| StrangeLines.ParsedAsContext | apps/worker/firmcode_worker/pipeline.py:1307-1328 | empty lines and lines with no known prefix inside a hunk are read as context |
| StrangeLines.BrokenHeaderIsContext | apps/worker/firmcode_worker/pipeline.py:1295-1328 | a header that cannot be read is read as context of the hunk it stands in, not as the end of it |
| StrangeLines.PreambleIsIgnored | apps/worker/firmcode_worker/pipeline.py:1288-1309 | whatever stands before the first header is not read |
| HunkParsing.NumbersAgree | pr-agent/pr_agent/algo/git_patch_processing.py:344-409 | reading the same patch text, the numbering and the worker give every added line the same number |
| HunkParsing.ExtensionKeepsChangedLines | pr-agent/pr_agent/algo/git_patch_processing.py:61-188 | extending a patch changes no number of an added line |
| HunkParsing.PrintedNumbersAreParsedNumbers | pr-agent/pr_agent/algo/git_patch_processing.py:61-411 | the numbers printed next to added lines after extension are those the worker reads from the unextended patch, even where trailing context is misnumbered |
| PatchPosition.FindByAbsolute | pr-agent/pr_agent/algo/utils.py:1144-1159 | the first patch line that computes the absolute line, or -1; it raises if and only if a header that cannot be read stands before that line |
| PatchPosition.FindByText | pr-agent/pr_agent/algo/utils.py:1168-1179 | the first line that matches and is no deletion, with its absolute line, or -1 for both; it raises if and only if a header that cannot be read, or an empty line that matches, stands before that line |
| PatchPosition.FindLine | pr-agent/pr_agent/algo/utils.py:1160-1197 | the second search without the plus sign runs only after the first found nothing; when either raises |
| PatchPosition.PositionsAreInverseIff | pr-agent/pr_agent/algo/utils.py:1141-1197 | on a well-formed patch looking up the absolute line found at a line that is neither header nor deletion gives its own position if and only if no earlier hunk shows that line; always so for lines of the new side |
| PatchPosition.RoundTrip | pr-agent/pr_agent/algo/utils.py:1125-1197 | the two lookups one after the other, on the whole patch |
| PatchPosition.AbsoluteIsTrueIff | pr-agent/pr_agent/algo/utils.py:1153-1178 | the absolute line of a new-side line is its true line number if and only if no no-newline marker precedes it in its hunk |
| StrangeLines.CountedAsContext | pr-agent/pr_agent/algo/utils.py:1144-1159 | empty lines and lines with no known prefix count as context on both sides |
| StrangeLines.PreambleIsCounted | pr-agent/pr_agent/algo/utils.py:1141-1159 | before the first header lines are counted from 0 on, deletions not |
| FailingPatches.AbsoluteLineFails | pr-agent/pr_agent/algo/utils.py:1153-1178 | the condition is needed: behind a marker the absolute line of line 1 is computed as 2 |
| FailingPatches.MarkerPositionFails | pr-agent/pr_agent/algo/utils.py:1141-1197 | a marker behind a deletion has the absolute line of an earlier hunk, and looking it up gives another position |
| LineSelection.ExtractHunkLines | pr-agent/pr_agent/algo/git_patch_processing.py:414-464 | the loop with its skip flag and line counter, for either side, computes the function SelectFrom |
| LineSelection.SelectsHunkByHunk | pr-agent/pr_agent/algo/git_patch_processing.py:423-455 | on the text of a hunk list, what is kept for the right side is what each admitted hunk shows in the range |
| LineSelection.KeptInsideHunk | pr-agent/pr_agent/algo/git_patch_processing.py:442-455 | for a range inside one hunk exactly the lines of the file are kept, an adjacent earlier hunk admitted by the inclusive bound adding nothing |
| LineSelection.FallbackAgreesWithFile | pr-agent/pr_agent/algo/utils.py:338-354 | the patch fallback selects the lines that slicing the head file selects |
| LineSelection.KeptOfLine | pr-agent/pr_agent/algo/utils.py:338-346 | the fallback drops deleted lines and the first character of every other line |
| SelectedSides.SelectionOfRendered | pr-agent/pr_agent/algo/git_patch_processing.py:414-464 | on the text of a hunk list, for either side: what is shown are the headers and lines of the hunks admitted, and what is selected the lines in range among them; on the left side the range starts with the hunk, wherever it was asked to start |
| SelectedSides.LeftIsPrefix | pr-agent/pr_agent/algo/git_patch_processing.py:448-453 | on the left side these are the lines of the hunk up to the one that completes the number of lines asked for, deletions not counted |
| SelectedSides.PreambleIsShown | pr-agent/pr_agent/algo/git_patch_processing.py:414-464 | lines before the first header are shown, and selected as if a hunk starting at line -1 held them |
| SelectedSides.MentionsMakeNoDifference | pr-agent/pr_agent/algo/git_patch_processing.py:423-425 | lines that hold the no-newline phrase change neither what is shown nor what is selected |
| SelectedSides.SelectRaisesIff | pr-agent/pr_agent/algo/git_patch_processing.py:427-434 | the selection raises if and only if some header cannot be read and does not hold the phrase |
| StrangeLines.SelectedAsContext | pr-agent/pr_agent/algo/git_patch_processing.py:446-455 | empty lines and lines with no known prefix are shown, counted and selected as context is |
| DeletionTrimming.OmitDeletionHunks | pr-agent/pr_agent/algo/git_patch_processing.py:231-265 | the loop returns the lines up to the end of the last hunk group that adds a line, less unreadable headers |
| DeletionTrimming.BrokenHeadersAreDropped | pr-agent/pr_agent/algo/git_patch_processing.py:231-265 | a header that cannot be read is dropped, wherever it stands |
| DeletionTrimming.OtherLinesStay | pr-agent/pr_agent/algo/git_patch_processing.py:231-265 | and no other line is |
| DeletionTrimming.TrimIsUnique | pr-agent/pr_agent/algo/git_patch_processing.py:231-265 | that end is determined: no two prefixes meet the description |
| DeletionTrimming.TrimKeepsAdditions | pr-agent/pr_agent/algo/git_patch_processing.py:258-263 | every added line is kept |
| DeletionTrimming.TrimIsIdempotent | pr-agent/pr_agent/algo/git_patch_processing.py:231-265 | trimming twice is trimming once |
| DeletionTrimming.TrimKeepsUpToLastAdding | pr-agent/pr_agent/algo/git_patch_processing.py:231-265 | on a hunk list the hunks up to the last that adds are kept: a hunk that only deletes is dropped if and only if no later hunk adds |
| FailingPatches.DeletionHunkStays | pr-agent/pr_agent/algo/git_patch_processing.py:231-265 | a patch whose first hunk only deletes is returned whole |
| MultiDiffPacking.PreparePatch | pr-agent/pr_agent/algo/pr_processing.py:434-474 | a patch that fits within 1500 tokens of the window is kept as it is; a larger one is clipped under the clipping policy if its clipped text fits, and skipped otherwise; an empty or missing patch is skipped |
| MultiDiffPacking.CandidatesAre | pr-agent/pr_agent/algo/pr_processing.py:434-474 | the patches packed are those that fit as they are and the clipped texts of the others that fit under the clipping policy, and no other |
| MultiDiffPacking.CandidatesConcat | pr-agent/pr_agent/algo/pr_processing.py:434-474 | each file is decided on its own, and the patches stay in file order |
| MultiDiffPacking.AllCandidates | pr-agent/pr_agent/algo/pr_processing.py:434-474 | if every patch fits, all are packed, in file order and unchanged |
| MultiDiffPacking.GetPrMultiDiffs | pr-agent/pr_agent/algo/pr_processing.py:424-500 | the packing loop yields a next-fit packing of a prefix of the patches: no diff empty, none over the limit, at most max_calls, and a cut only where the call limit was reached |
| MultiDiffPacking.NeighboursExceed | pr-agent/pr_agent/algo/pr_processing.py:476-487 | two neighbouring diffs together exceed the free capacity |
| MultiDiffPacking.PairsExceed | pr-agent/pr_agent/algo/pr_processing.py:424-500 | two diffs in a row carry more than one capacity, summed over all pairs |
| MultiDiffPacking.WithinTwiceTheOptimum | pr-agent/pr_agent/algo/pr_processing.py:424-500 | whatever m diffs hold, no packing under the same limit uses fewer than (m + 1) / 2 calls |
| CompressedDiff.GenerateFullPatch | pr-agent/pr_agent/algo/pr_processing.py:279-317 | the loop of one pass computes the function RunPass |
| CompressedDiff.PassInTurn | pr-agent/pr_agent/algo/pr_processing.py:284-317 | each entry is decided by the tokens packed before it: packed, left, or neither, with the thresholds of 1000 and 1500 tokens; packed and left files are in the order of the dictionary |
| CompressedDiff.GenerateCompressedDiff | pr-agent/pr_agent/algo/pr_processing.py:247-276 | what is recorded is what the passes packed, in order, and what is left is what the last pass left; later empty passes are not recorded; one pass for a small pull request, at most max(1, max_ai_calls - 1) for a large one |
| CompressedDiff.HardStopUnreachable | pr-agent/pr_agent/algo/pr_processing.py:292-295 | when every patched entry but the last wraps within 500 extra tokens, no entry of a pass meets the hard stop |
| CompressedDiff.TotalStaysWithin | pr-agent/pr_agent/algo/pr_processing.py:292-310 | when every patched entry wraps within 500 extra tokens, every pass total stays within the hard threshold |
| CompressedDiff.NeverDropsIff | pr-agent/pr_agent/algo/pr_processing.py:292-295 | no pass meets the hard stop if and only if every patched entry but the last wraps within 500 extra tokens: whatever files are asked for and with any prompt within the hard threshold, and already in the first pass, which asks for every file, with any one prompt size |
| CompressedDiff.TotalsWithinIff | pr-agent/pr_agent/algo/pr_processing.py:292-310 | every total stays within the hard threshold if and only if every patched entry wraps within 500 extra tokens, in the same two senses |
| CompressedDiff.NeverLosesIff | pr-agent/pr_agent/algo/pr_processing.py:250-310 | over any number of passes no patched file is lost if and only if every patched entry with a patched one behind it wraps within 500 extra tokens, in the same two senses |
| CompressedDiff.WindowLeaves | pr-agent/pr_agent/algo/pr_processing.py:279-310 | for any entries there is a model window in which a pass over them leaves exactly a given number of tokens below the soft threshold |
| CompressedDiff.PassPartitions | pr-agent/pr_agent/algo/pr_processing.py:284-317 | under that condition one pass splits the patched files asked for into packed ones and ones left |
| CompressedDiff.PassesLoseNothing | pr-agent/pr_agent/algo/pr_processing.py:250-274 | over any number of passes packed files and patched files left are together exactly the patched files asked for |
| CompressedDiff.PassTakesAFittingFile | pr-agent/pr_agent/algo/pr_processing.py:297-314 | a pass asked for files that fit alone leaves strictly fewer of them |
| CompressedDiff.PacksNothingOnlyIfTooLarge | pr-agent/pr_agent/algo/pr_processing.py:297-305 | a pass packs nothing only if every patched file asked for is too large on its own |
| CompressedDiff.StuckIsFixpoint | pr-agent/pr_agent/algo/pr_processing.py:260-274 | from such a state the next pass leaves the same files |
| CompressedDiff.StuckForever | pr-agent/pr_agent/algo/pr_processing.py:260-274 | and so does every further pass |
| CompressedDiff.FittingFilesGetPacked | pr-agent/pr_agent/algo/pr_processing.py:260-274 | every file that fits alone is packed within as many passes as there are such files |
| CompressedDiff.PackAllFitting | pr-agent/pr_agent/algo/pr_processing.py:247-276 | the passes as the code runs them lose no patched file, and with one call more than there are files that fit alone they pack every such file |
| CompressedDiff.DearWrappingLosesAFile | pr-agent/pr_agent/algo/pr_processing.py:292-295 | a small instance: with dear wrapping a file is neither packed nor left |
| CompressedDiff.EmptyPatchMayRemain | pr-agent/pr_agent/algo/pr_processing.py:297-307 | a file with an empty patch can stay in the list of files left |
| InlinePublishing.PartitionExisting | apps/worker/firmcode_worker/pipeline.py:2273-2314 | the loop that takes the first matching comment out of the remaining ones computes the function Partition |
| InlinePublishing.MatchPublished | apps/worker/firmcode_worker/pipeline.py:2232-2270 | the same for the comments of a new review, raising at the first without a match |
| InlinePublishing.FetchCreated | apps/worker/firmcode_worker/pipeline.py:410-437 | the loop over up to five listings of one page, each in any order, computes the function Fetched; when it answers is PublishingReports.AnswersIff |
| InlinePublishing.PullRequest.PostReview | apps/worker/firmcode_worker/pipeline.py:359-380 | posting adds the missing comments with fresh ids |
| InlinePublishing.PublishInline | apps/worker/firmcode_worker/pipeline.py:320-391 | one attempt changes the pull request and answers as the functions Attempted and Answer say |
| InlinePublishingProofs.PartitionPairs | apps/worker/firmcode_worker/pipeline.py:2273-2314 | greedy removal is rank matching: the r-th selected comment of a key gets the r-th comment of that key |
| InlinePublishingProofs.MissingIsShortfall | apps/worker/firmcode_worker/pipeline.py:2296-2298 | of every key exactly the shortfall is missing |
| InlinePublishingProofs.ExactlyOnce | apps/worker/firmcode_worker/pipeline.py:320-391 | over any sequence of attempts, each failing before the post, after it, or not at all, the number of comments of every (path, line, body) is the initial one until an attempt posts and then max(initial, selected) |
| InlinePublishingProofs.CommentsStay | apps/worker/firmcode_worker/pipeline.py:320-391 | over any sequence of attempts the comments there were stay in place, and no comment id or review id is given twice |
| InlinePublishingProofs.PostsOneReview | apps/worker/firmcode_worker/pipeline.py:359-380 | what an attempt adds is one new review with exactly the missing comments, in order |
| InlinePublishingProofs.ExactlyOnceIffSeen | apps/worker/firmcode_worker/pipeline.py:345-380 | if listings of the pull request may lag behind, there are never too few comments of a key, and not too many if and only if every attempt that posts sees as many as there are or as are wanted |
| PublishingReports.ReportIsFinalPairing | apps/worker/firmcode_worker/pipeline.py:382-391 | a successful attempt reports exactly the comments with which the selected ones are then paired on the pull request, none missing; which finding got which comment is that of the pairing if no two missing comments share path, line and body but not their finding, or the listing keeps the posting order |
| PublishingReports.AnswersIff | apps/worker/firmcode_worker/pipeline.py:410-437 | an attempt that finds comments missing answers if and only if one of the first five listings of the new review shows, on its page of 100, as many comments of every key as are missing; it then reports the pairing with the first such listing |
| PublishingReports.OtherAnswers | apps/worker/firmcode_worker/pipeline.py:320-357 | nothing selected answers with nothing; an attempt that fails raises; with nothing missing the answer is the pairing with the comments there are |
| PublishingReports.RetryReportsTheSame | apps/worker/firmcode_worker/pipeline.py:352-357 | a retry after success posts nothing and reports the same comments; under the same condition, the same pairs |
| PublishingReports.ReportedIdsDistinct | apps/worker/firmcode_worker/pipeline.py:2300-2312 | however the new review is listed, each reported comment id is used once |
| PublishingReports.SwappedListingSwapsFindings | apps/worker/firmcode_worker/pipeline.py:2232-2270 | whenever two missing comments of one page share path, line and body but not their finding, the listing that exchanges them makes the attempt report the comment of the one for the other, and every retry report it back |
| PublishingReports.RetriesAgreeIff | apps/worker/firmcode_worker/pipeline.py:320-391 | the exact condition, on the missing comments alone: over all listings and retries the report is the same if and only if there are no two such comments, or the missing ones exceed a page and no attempt succeeds |
| PublishingReports.ReportsArePairingsIff | apps/worker/firmcode_worker/pipeline.py:382-391 | under the same condition, and only then, every successful attempt reports the pairing then on the pull request |
| CommentRecording.RecordingTwiceIsOnce | apps/worker/firmcode_worker/pipeline.py:829-876 | recording the same report again, in any order, leaves the table of published comments as it was |
| CommentRecording.RecordedRows | apps/worker/firmcode_worker/pipeline.py:829-876 | recording gives every report its row under its comment id and keeps both unique indexes |
| CommentRecording.RecordSucceedsIff | apps/api/src/infrastructure/database/migrations/001_initial_review_schema.ts:144-164 | the first recording of a run raises if and only if two reports are of one finding with one path, line and body |
| CommentRecording.FirstRecordingIff | apps/worker/firmcode_worker/pipeline.py:829-876 | the report of a successful attempt can be recorded for a run without rows if and only if no comment is selected twice |
| CommentRecording.UnswappableRetryRecords | apps/worker/firmcode_worker/pipeline.py:829-876 | whatever rows there are, recording after a retry changes nothing if no two missing comments of one page share path, line and body but not their finding |
| CommentRecording.RetryRecordsIff | apps/worker/firmcode_worker/pipeline.py:829-876 | attempt, record, retry, record, for a run without rows: the second recording changes nothing under every listing if and only if a comment is selected twice, so that the first raises, or no two missing comments of one page share path, line and body but not their finding |
| CommentRecording.SwappedRetryRaises | apps/worker/firmcode_worker/pipeline.py:829-876 | in the other case the exchanging listing lets the attempt be recorded, and no retry of it |
| ReviewLifecycle.RowsOverRuns | apps/worker/firmcode_worker/review_queue.py:65-108 | over every interleaving superseded is never left, started_at and finished_at, once set, are kept, and every state called terminal has finished_at; the error code of a superseded row may be rewritten by a late check |
| ReviewRows.RowsOkOverRuns | apps/worker/firmcode_worker/review_queue.py:65-108 | over every interleaving each row has the time stamps and the error code that go with its status: queued rows none; running, succeeded and failed rows a start; succeeded and failed rows a finish not before it; failed and superseded rows a code, running and succeeded rows none |
| ReviewRows.StartStays | apps/worker/firmcode_worker/review_queue.py:65-78 | the first step of a job on a run not superseded sets started_at to the present if there was none, and whatever happens afterwards keeps it |
| ReviewRows.WhatAStepWrites | apps/worker/firmcode_worker/review_queue.py:65-108 | which columns of which row each step of a job writes, by its program point |
| ReviewRows.WhatAStepLogs | apps/worker/firmcode_worker/pipeline.py:990-1057 | which posts each step makes, and with which heads a check is made |
| ReviewRows.RaisingFails | apps/worker/firmcode_worker/review_queue.py:184-198 | an exception inside the pipeline, before or after the effect of a step, leaves the run failed unless it is superseded |
| ReviewRows.DyingEnds | apps/worker/firmcode_worker/review_queue.py:184-198 | a worker that dies changes nothing more |
| ReviewAlone.AloneIsProcessed | apps/worker/firmcode_worker/review_queue.py:184-198 | a job of the interleaved system that is alone posts the same comments and leaves the same table as the sequential job, wherever it raises |
| ReviewAlone.PostsIff | apps/worker/firmcode_worker/pipeline.py:990-1057 | such a job posts inline comments if and only if it has any, the run may be published to and nothing raised up to that post; the summary likewise, after them; and when it returns |
| ReviewAlone.CheckAnswers | apps/worker/firmcode_worker/pipeline.py:735-773 | what the check answers, and the one row it changes, column by column |
| ReviewAlone.SupersedesOthers | apps/api/src/modules/webhooks/github/postgres-github-webhook.store.ts:326-348 | the queued and running runs of the pull request for another commit, and no other row, get superseded |
| ReviewLifecycle.EmptySystem | apps/worker/firmcode_worker/review_queue.py:184-198 | the invariant holds before any run or job exists, whatever pull requests there are |
| ReviewLifecycle.InvKept | apps/worker/firmcode_worker/review_queue.py:184-198 | the invariant every step of every job and outside party keeps, the SELECT and the UPDATE of a check being two steps |
| ReviewLifecycle.PostsOnlyAfterGoodCheck | apps/worker/firmcode_worker/pipeline.py:990-1057 | comments are posted and a run is set to succeeded only after a check of that job that found equal heads on a run not superseded |
| ReviewLifecycle.PostAfterSupersede | apps/worker/firmcode_worker/pipeline.py:990-1057 | the check is not repeated: a head move and a supersede after it let the summary of a superseded run be posted |
| ReviewLifecycle.StaysPublishableIff | apps/worker/firmcode_worker/pipeline.py:735-773 | a publishable run stays so in a step if and only if that step neither moves its head away, nor supersedes it while queued or running, nor is the UPDATE of a check of it that found another head earlier |
| ReviewLifecycle.PublishableIff | apps/worker/firmcode_worker/pipeline.py:735-773 | over whole runs: a live run is publishable after any steps if and only if none of them superseded it and its head is then at its commit |
| ReviewLifecycle.PostIsCurrentIff | apps/worker/firmcode_worker/pipeline.py:990-1057 | a post made any steps after a good check is for a live run at its current head if and only if none of these steps superseded the run and the head is then at its commit |
| ReviewLifecycle.LateUpdateSupersedes | apps/worker/firmcode_worker/pipeline.py:754-771 | a run no party supersedes and whose head is back can still be superseded: the UPDATE of one check comes after the good check of another, which then posts for it |
| ReviewLifecycle.UndisturbedPostsAreCurrent | apps/worker/firmcode_worker/pipeline.py:990-1057 | while no disturbing step happens, whatever else interleaves, every post of a job of the run is for a live run at its current head |
| ReviewLifecycle.FinishedRunMayRunAgain | apps/worker/firmcode_worker/review_queue.py:65-78 | mark_running on a finished run keeps its finish time, and sets it back to running unless it is superseded |
| ReviewLifecycle.ReviewStore.SetRunning | apps/worker/firmcode_worker/review_queue.py:65-78 | the guarded update on the table in place |
| ReviewLifecycle.ReviewStore.SetSucceeded | apps/worker/firmcode_worker/review_queue.py:80-93 | the guarded update on the table in place |
| ReviewLifecycle.ReviewStore.SetFailed | apps/worker/firmcode_worker/review_queue.py:95-108 | the guarded update on the table in place |
| ReviewLifecycle.ReviewStore.VerifyPublishable | apps/worker/firmcode_worker/pipeline.py:735-773 | the check, its reason, and the row it supersedes when the heads differ |
| ReviewLifecycle.ReviewStore.RunPipeline | apps/worker/firmcode_worker/pipeline.py:940-1093 | what the pipeline posts and leaves in the table, and where it raises |
| ReviewLifecycle.ReviewStore.ProcessJob | apps/worker/firmcode_worker/review_queue.py:184-198 | the whole job on the table, exceptions included |
| ReviewLifecycle.JobAloneEnds | apps/worker/firmcode_worker/review_queue.py:184-198 | the state in which a job that is alone leaves its run, exactly, in terms of the run it found |
| FindingLifecycle.WorkerStepsKeep | apps/worker/firmcode_worker/codebase_scan.py:507-621 | no worker step, under any interleaving, changes a muted status or a row of another repository |
| FindingLifecycle.TimesOverRuns | apps/worker/firmcode_worker/codebase_scan.py:566-575 | over every run, users included, a finding has resolved_at exactly when it is resolved |
| FindingLifecycle.ProgressOverRuns | apps/worker/firmcode_worker/codebase_scan.py:751-810 | what holds of a finding at each program point of a scan, while other scans of the repository agree on it and no user resolves it behind its last upsert or, if it is not observed, opens it behind the sweep |
| FindingLifecycle.CompletedScanLeavesObservedOpen | apps/worker/firmcode_worker/codebase_scan.py:751-810 | under these two provisos, whatever else interleaves, a finding is open after a completed scan if and only if it was observed and is not muted |
| FindingLifecycle.UserActionRightIff | apps/api/src/modules/codebase-scans/codebase-scan.store.ts:752-765 | the proviso about users is exact: a user sets any status at any moment and after that only this scan touches the finding; the completed scan leaves it right if and only if the action was not one of the two |
| FindingLifecycle.ResolvingAfterUpsertHurts | apps/api/src/modules/codebase-scans/codebase-scan.store.ts:752-765 | resolving an observed finding behind its last upsert leaves it resolved after every scan that completes |
| FindingLifecycle.OpeningAfterSweepHurts | apps/api/src/modules/codebase-scans/codebase-scan.store.ts:752-765 | opening a finding that was not observed behind the sweep leaves it open |
| FindingLifecycle.ConcurrentScansCloseEachOther | apps/worker/firmcode_worker/codebase_scan.py:751-810 | two scans that both upsert before either resolves leave open only what both observed |
| FindingLifecycle.ConcurrentScansRightIff | apps/worker/firmcode_worker/codebase_scan.py:751-810 | the exact condition: of two scans of a repository about to begin, neither commit scanned before, every interleaving leaves an unmuted finding right for each scan that completes if and only if both observed it or neither did |
| FindingLifecycle.ScanStore.UpsertFinding | apps/worker/firmcode_worker/codebase_scan.py:507-594 | the upsert on the table in place, nothing else changed |
| FindingLifecycle.ScanStore.ResolveStaleFindings | apps/worker/firmcode_worker/codebase_scan.py:596-621 | resolves exactly the open, unobserved findings of the repository, if the scan succeeded, and counts them |
| FindingLifecycle.ScanStore.MarkScan | apps/worker/firmcode_worker/codebase_scan.py:458-491 | the status and the finish time of a scan run |
| FindingLifecycle.ScanStore.UpsertFindings | apps/worker/firmcode_worker/codebase_scan.py:752-753 | the loop leaves every observed finding seen now by this scan, and open or muted as before, and every other row as it was |
| FindingLifecycle.ScanStore.RecordScan | apps/worker/firmcode_worker/codebase_scan.py:751-810 | run alone, a scan leaves exactly this table: observed findings seen now and open unless muted, other open ones of the repository resolved now, the rest as it was; the scan run succeeded, and the number of resolved findings is returned |
| ScanRuns.SkippedIff | apps/worker/firmcode_worker/codebase_scan.py:423-436 | a scan that does not raise is skipped if and only if another scan of its repository and commit has succeeded |
| ScanRuns.SkippedAlone | apps/worker/firmcode_worker/codebase_scan.py:493-505 | it then ends superseded, with no finding touched |
| ScanRuns.CompletesAlone | apps/worker/firmcode_worker/codebase_scan.py:690-810 | otherwise, if nothing else goes on, it completes and leaves every finding as a scan does and its own row succeeded |
| ScanRuns.SecondScanIsSkipped | apps/worker/firmcode_worker/codebase_scan.py:699-713 | after a scan that completed alone another scan of the same commit is skipped |
| ScanRuns.RaisingFails | apps/worker/firmcode_worker/codebase_scan.py:478-491 | a scan that raises anywhere ends failed; what it had upserted stays |
| ScanRuns.ResolvesOnlyAfterSuccess | apps/worker/firmcode_worker/codebase_scan.py:596-621 | the sweep resolves the open findings of the repository that were not observed if the scan run is of that repository and succeeded, and changes nothing otherwise |
| ScanRuns.ScanRowsOverRuns | apps/worker/firmcode_worker/codebase_scan.py:438-505 | over every interleaving each scan run has the time stamps that go with its status |
| ScanRuns.UserSetsOne | apps/api/src/modules/codebase-scans/codebase-scan.store.ts:752-765 | a user action sets the status of one finding and its time of resolution, and nothing else |
| PromptDelimiters.EscapingIsReversible | packages/prompts/src/index.ts:292-296 | an unescape function recovers every string from its escaped form |
| PromptDelimiters.SecondPassKeepsFirstName | packages/prompts/src/index.ts:293-295 | the second replacement makes and removes no occurrence of the first name |
| PromptDelimiters.EscapedHasNoDelimiter | packages/prompts/src/index.ts:292-296 | escaped text holds neither delimiter name followed by a colon |
| PromptDelimiters.OtherTextIsKept | packages/prompts/src/index.ts:292-296 | text without either name is left as it is |
| PromptDelimiters.NamesAreMarked | packages/prompts/src/index.ts:292-296 | each name gets the suffix _IN_DATA |
| PromptDelimiters.MessageIsFramed | packages/prompts/src/index.ts:258-290 | splitting a rendered message at its delimiter lines gives its sections in order, with their escaped texts |
| PromptDelimiters.MessageRoundTrip | packages/prompts/src/index.ts:258-296 | splitting and unescaping gives back the sections a message was rendered from |
| PromptDelimiters.SectionIs | packages/prompts/src/index.ts:284-290 | a section letter by letter |
| PromptDelimiters.MessageIs | packages/prompts/src/index.ts:258-282 | a message is its metadata, introduction, sections and conclusion with empty lines between them |
| WorkspacePlanning.Examine | apps/worker/firmcode_worker/codebase_scan.py:293-324 | the decision on one file, in the order of the checks |
| WorkspacePlanning.SelectedIff | apps/worker/firmcode_worker/codebase_scan.py:286-363 | a file is selected if and only if no path rule applies, its language is supported, its listed and its fetched size are within every limit and it can be fetched and decoded |
| WorkspacePlanning.SkippedBecause | apps/worker/firmcode_worker/codebase_scan.py:286-363 | otherwise the reason is the first test it fails, in the order of the code |
| WorkspacePlanning.PathReasons | apps/worker/firmcode_worker/codebase_scan.py:343-372 | the reason given for each path rule |
| WorkspacePlanning.AbortedIff | apps/worker/firmcode_worker/codebase_scan.py:303-308 | the plan is given up if and only if fetching a file that passed the tests before it raises |
| WorkspacePlanning.DecidedInTurn | apps/worker/firmcode_worker/codebase_scan.py:286-324 | each decision counts exactly the files selected before it and their bytes |
| WorkspacePlanning.PlanWorkspace | apps/worker/firmcode_worker/codebase_scan.py:280-341 | the files are taken sorted by path, and the loop takes that decision for every file with the counts so far |
| WorkspacePlanning.EveryFileOnce | apps/worker/firmcode_worker/codebase_scan.py:286-324 | the selected and the skipped files are together the files given, each once |
| WorkspacePlanning.ListsKeepOrder | apps/worker/firmcode_worker/codebase_scan.py:286-324 | both lists are subsequences of the files taken |
| WorkspacePlanning.PlanInPathOrder | apps/worker/firmcode_worker/codebase_scan.py:286-324 | for tree files in any order, the selected and the skipped files are together the tree files, and each list is in path order |
| WorkspacePlanning.AtMostIff | apps/worker/firmcode_worker/codebase_scan.py:290-290 | paths are ordered by the first character in which they differ, and a path comes before those it begins |
| WorkspacePlanning.ByPathIsStable | apps/worker/firmcode_worker/codebase_scan.py:290-290 | files of one path stay in the order given |
| WorkspacePlanning.BytesAddUp | apps/worker/firmcode_worker/codebase_scan.py:316-341 | selectedBytes is the sum of the sizes of the selected files |
| WorkspacePlanning.TallyAddsUp | apps/worker/firmcode_worker/codebase_scan.py:326-341 | the skip counts by reason add up to the number of skipped files |
| WorkspacePlanning.LimitsHold | apps/worker/firmcode_worker/codebase_scan.py:297-314 | count, per-file and total byte limits hold |
| WorkspacePlanning.SkipsAreForced | apps/worker/firmcode_worker/codebase_scan.py:297-314 | a file skipped for max_total_bytes overflows even the final selection, and a max_files skip implies a full one |
| FindingDedup.DedupeCodebaseFindings | apps/worker/firmcode_worker/pipeline.py:1601-1637 | the loop over three growing key sets keeps exactly the findings Kept names |
| FindingDedup.KeptIff | apps/worker/firmcode_worker/pipeline.py:1620-1637 | the next finding is kept if and only if no current and no kept one has its path, line, title and evidence, and none its dedupe key, the current ones without a key aside |
| FindingDedup.ExactKeysAddNothing | apps/worker/firmcode_worker/pipeline.py:1624-1629 | the exact-key sets decide nothing the cross-source keys do not |
| FindingDedup.KeptAreDistinct | apps/worker/firmcode_worker/pipeline.py:1620-1637 | kept findings are pairwise distinct on both keys |
| FindingDedup.KeptAvoidCurrent | apps/worker/firmcode_worker/pipeline.py:1620-1637 | every kept finding is disjoint from every current one on both keys |
| FindingDedup.KeptInOrder | apps/worker/firmcode_worker/pipeline.py:1620-1637 | the kept findings are a subsequence of the findings given |
| FindingDedup.DroppedForAReason | apps/worker/firmcode_worker/pipeline.py:1623-1631 | each dropped finding collides with a current or an earlier kept one |
| FindingDedup.DedupIsIdempotent | apps/worker/firmcode_worker/pipeline.py:1601-1637 | deduplicating twice is deduplicating once |
| SuggestionRelocation.DiffFile.Ranges | pr-agent/pr_agent/git_providers/github_provider.py:1124-1137 | the ranges are computed once, kept with the file, and are those of its headers |
| SuggestionRelocation.RangesOfRendered | pr-agent/pr_agent/git_providers/github_provider.py:1124-1137 | the ranges of a patch are those of the new sides in its headers, in order |
| SuggestionRelocation.RangeShowsNewSide | pr-agent/pr_agent/git_providers/github_provider.py:1124-1137 | in a well-formed patch the range of a hunk holds exactly the numbers its new lines have in the new file |
| SuggestionRelocation.ProductSign | pr-agent/pr_agent/git_providers/github_provider.py:1150-1157 | the sign test on the product admits exactly the hunks of which one end of the suggestion lies inside the bound |
| SuggestionRelocation.FindHunk | pr-agent/pr_agent/git_providers/github_provider.py:1144-1163 | the search stops at a hunk that contains the suggestion, or ends with the first straddled hunk of least overhang |
| SuggestionRelocation.ValidateSuggestion | pr-agent/pr_agent/git_providers/github_provider.py:1137-1187 | a suggestion is kept, or clipped into a nearest hunk under ten lines off |
| SuggestionRelocation.ValidatedMeans | pr-agent/pr_agent/git_providers/github_provider.py:1137-1187 | in plain numbers: kept if inside a range or if no range is straddled by less than ten lines; otherwise clipped into the first of the nearest straddled ranges |
| SuggestionRelocation.PublishCodeSuggestions | pr-agent/pr_agent/git_providers/github_provider.py:559-591 | which suggestions are posted, as one line or several |
| SuggestionRelocation.PostIs | pr-agent/pr_agent/git_providers/github_provider.py:559-591 | nothing without a usable start or with the end before it, one line if both are equal, several otherwise |
| SuggestionRelocation.RelocationIsSound | pr-agent/pr_agent/git_providers/github_provider.py:1144-1168 | a complete suggestion found inside a hunk or moved, and then posted, lies inside one hunk and inside its own range |
| SuggestionRelocation.PostedInHunkIff | pr-agent/pr_agent/git_providers/github_provider.py:1144-1168 | a posted suggestion lies in a hunk if and only if it was inside one or straddled one closely |
| SuggestionRelocation.MovedIsPostedIff | pr-agent/pr_agent/git_providers/github_provider.py:565-574 | a moved suggestion is posted if and only if it shares a line with its hunk |
| SuggestionRelocation.EnclosingSuggestionStays | pr-agent/pr_agent/git_providers/github_provider.py:1152-1157 | a suggestion that sticks out of every hunk on both sides, or by ten lines, is posted where it stands, in no hunk |

## Left out

- PatchNumbering.ConvertToNumberedHunks: prints entries, not text; the trimming of white space between blocks and the file title line are not modelled.
- PatchNumbering.NumberOfRendered: lower-casing before the search for the no-newline phrase is modelled for ASCII letters only, and so is the white space that strip removes in the first-line check.
- PatchExtension.ProcessPatchLines: takes lines already split and classified; the decoding of bytes, and the retry under other encodings in the first-line check, which gives up the hunk either way, are not modelled.
- ExtendThenNumber.ExtendThenNumberIsTruthfulIff: requires starts of at least one (FailingPatches.StartZeroFails shows why) and explicit sizes; an omitted size is read as 0 by pr-agent (git_patch_processing.py:219-221) and as 1 by the worker (pipeline.py:1301-1304), so a header without sizes is not the same hunk to both.
- SelectedSides.SelectionOfRendered: shows and selects lines, not text; the file title line is not modelled and trailing white space is not trimmed.
- PatchPosition.FindLine: whether a text occurs in a line, close matching included, is an arbitrary predicate.
- MultiDiffPacking.GetPrMultiDiffs: the early return of the whole diff when it fits, and the joining of patches into text, are not modelled; token counts are an arbitrary function.
- CompressedDiff.GenerateCompressedDiff: patches are names with token counts; the lists of added, modified and deleted files that the caller appends are not modelled.
- CommentRecording.RetryRecordsIff: the hash of a body stands for the run, the finding and the key it is computed from; rows without a comment id and the table's check for positive lines are not modelled.
- InlinePublishing.PublishInline: the comments already on the pull request are listed completely and in one order; what a listing that lags behind does to the numbers of comments is InlinePublishingProofs.ExactlyOnceIffSeen. Dry runs post nothing and are not modelled; comments with no line are read as line 0, as the code reads them; a body that GitHub stores changed would not be recognised.
- ReviewLifecycle.ReviewStore.ProcessJob: progress comments, artifacts and the contents of the summary are not modelled; every SQL statement is one atomic step on the table, and the steps of different jobs interleave between statements.
- FindingLifecycle.CompletedScanLeavesObservedOpen: findings are keys with a status; their texts, severities and artifacts are not modelled.
- WorkspacePlanning.PlanWorkspace: the path patterns and languages are given with each file, and fetching is an arbitrary function.
- FindingDedup.DedupeCodebaseFindings: evidence hashes and normalised titles are values of the keys.
- PromptDelimiters.MessageRoundTrip: the metadata, introduction and conclusion are texts without the opening delimiter; section titles have no line break, and sections are texts, as JSON printing is not modelled.
- SuggestionRelocation.ValidateSuggestion: the rewriting of the comment body is not modelled.
- HTTP clients, database connections, tokenizers, hashing, regular expressions and configuration loading are parameters or absent.
- The choice of inline comments from semgrep findings, LLM enrichment, summary rendering, the Gitea diff splitter and the web dashboard would add no harder property.
