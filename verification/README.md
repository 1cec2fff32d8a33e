# IMO25 run-log report renderer, modelled in Dafny

The converter `code/json_to_html_converter.py` turns one solver log into a single HTML page. A log is a
document with optional metadata (problem statement, timestamp, model name) and a list of runs. Each run has
a number, a timestamp, a status, a reason and a list of iterations. Each iteration has a number, counters of
correct and erroneous steps, a verification result, a correctness flag, an optional corrected solution and
an optional verification holding an optional bug report. Every field is read with a default.

The page is built in a fixed order:
1. the shell head carrying the title;
2. the metadata block;
3. a block of six statistics;
4. when there are runs, a "Solution Attempts" heading and one section per run. Each run section holds its
   header, an optional reason line, and an optional count heading followed by one section per iteration;
5. the shell foot.

The model covers all of this as pure functions over immutable records:

- `Records`: the log as datatypes. Every JSON key is an `Option` field, and accessors apply the source's
  defaults.
- `Text`: the string operations the renderer uses. This is Python's `str.replace` (one left-to-right pass,
  non-overlapping matches), `strip` (Python's whitespace set), and `upper` and `title` on ASCII letters.
- `Decimal`: `str()` of an integer, and a reader for it.
- `Template`: literal texts interleaved with values, and the reader that takes the values back out.
- `Statistics`: the six counters of the statistics block and their HTML.
- `Pieces`: rendered output as a list of pieces. The concatenation of the pieces is exactly the HTML text.
  A piece that opens one of the report's blocks is marked with that block. The source inserts user text
  without escaping, so user text may look like any markup. The marks let a property say which blocks
  appear, and in what order, without depending on that text.
- `Layout`: the block outline each input must produce, stated directly on the records. This is the
  reference the renderers are proved against.
- `Sections`: problem-statement cleanup, timestamp display, and the metadata, iteration and run renderers.
- `Report`: the title and the page assembly.

Some details of the text handling:
- Solution text is inserted as it is, with no escaping and no markup conversion.
- Only bug reports have their newlines turned into `<br>`.
- The problem-statement marker is removed wherever it occurs, in one left-to-right pass, before stripping.

## Model

| member | source | states |
|---|---|---|
| Text.Strip | code/json_to_html_converter.py:293 | The result has no whitespace at either end. It is a contiguous slice of the input that starts after the leading whitespace, and only whitespace follows it. |
| Text.StripUnique | code/json_to_html_converter.py:293 | Surrounding a text with no whitespace at its ends by any whitespace, then stripping, gives the text back. |
| Text.StripIdempotent | code/json_to_html_converter.py:293 | Stripping twice is stripping once. |
| Text.ReplaceAll | code/json_to_html_converter.py:292 | A text without the pattern is unchanged. A replacement no longer than the pattern never lengthens the text, and one no shorter never shortens it. |
| Text.ReplaceLeftmost | code/json_to_html_converter.py:292 | When the pattern first occurs right after a prefix, the result is that prefix, then the replacement, then the rest with its own occurrences replaced. |
| Text.ReplaceCharByChar | code/json_to_html_converter.py:497 | Replacing one character by another keeps the length and changes exactly the positions that held that character. |
| Text.ReplaceCharRemovesIt | code/json_to_html_converter.py:402 | After every occurrence of a character is replaced by a text that lacks it, the character no longer occurs. |
| Text.ReplaceCharLength | code/json_to_html_converter.py:402 | The replaced text is longer by (replacement length − 1) per occurrence of the character. |
| Text.BreaksRestoreNewlines | code/json_to_html_converter.py:402 | For a text with no `<br>` of its own, turning the `<br>`s back into newlines restores the original. |
| Text.Upper | code/json_to_html_converter.py:339 | Same length, no lower-case letter left, and every character equal to the original up to case. |
| Text.TitleCase | code/json_to_html_converter.py:497 | Same length and same letters up to case. A letter is capital exactly when it starts a word, i.e. it is first or follows a non-letter. |
| Text.TitleCaseIdempotent | code/json_to_html_converter.py:497 | Title-casing a title-cased text changes nothing. |
| Decimal.IntToString | code/json_to_html_converter.py:344 | Non-empty. All digits exactly for non-negative numbers, otherwise a minus sign followed by digits. The digits never start with a redundant zero. |
| Decimal.IntRoundTrip | code/json_to_html_converter.py:381 | Reading the decimal text of any integer gives the integer back. |
| Template.FillUnfill | code/json_to_html_converter.py:427-467 | Values without `<`, placed between literals that begin with `<`, are read back exactly. |
| Statistics.RunStats | code/json_to_html_converter.py:413-425 | Total runs equal the number of runs. Failed runs equal the number of positions whose status is exactly `failed`. Successful plus failed equals total. Total iterations is the length of all runs' iterations together. Correct and error totals are the sums of the per-iteration counters, which default to 0. |
| Statistics.FailedSumIsFailedPositions | code/json_to_html_converter.py:414 | Counting failed runs one by one gives the size of the set of failed positions. |
| Statistics.SumOverAllIterations | code/json_to_html_converter.py:418-425 | Summing per run and then over runs equals summing over all iterations at once. |
| Statistics.RunStatsAppend | code/json_to_html_converter.py:413-425 | The statistics of two run lists joined together are the field-wise sum of their statistics. |
| Statistics.StatsRoundTrip | code/json_to_html_converter.py:427-467 | Reading the six counters back out of the statistics block, in the order runs, successful, failed, iterations, correct, errors, gives the statistics that were rendered. |
| Pieces.SectionListInOrder | code/json_to_html_converter.py:358-359 | A list renderer's text is the elements' section texts joined in input order, each element rendered with its own position. |
| Layout.RunsOutline | code/json_to_html_converter.py:510-512 | The runs' outline holds only run-level blocks and exactly one run header per run. |
| Sections.FormatProblemStatement | code/json_to_html_converter.py:286-293 | Empty input gives the placeholder. Otherwise the result has no surrounding whitespace, and for a statement without the marker it is the statement stripped. |
| Sections.ProblemStatementDropsMarker | code/json_to_html_converter.py:292-293 | A statement that starts with the marker, and holds no other, is shown as the stripped rest. |
| Sections.TimestampFallback | code/json_to_html_converter.py:26-32 | The date parser never sees a `Z`. A text without `Z` is passed on as it is. A text the parser rejects is shown unchanged, and one it accepts is shown as the parser reformats it. |
| Sections.ZoneSpelledOut | code/json_to_html_converter.py:29 | The leftmost `Z` becomes `+00:00`, the text before it is kept, and the rest is treated the same way. |
| Sections.MetadataPieces | code/json_to_html_converter.py:296-328 | The block opens the metadata frame, then the problem, timestamp and model items in that order, each exactly when its key is present. Each item shows its formatted value. |
| Sections.IterationHeaderReadsBack | code/json_to_html_converter.py:367-383 | The shown number reads back as the iteration number, or the position when that is missing. Both counters read back, 0 when missing. The badge style is `success` exactly when `is_correct` is true. The badge text is the result (`unknown` when missing) in capitals. |
| Sections.BugReportLines | code/json_to_html_converter.py:399-403 | No newline survives in the shown report. The shown text grows by three characters per newline. A report with no `<br>` of its own can be recovered. |
| Sections.VerificationPieces | code/json_to_html_converter.py:394-405 | The wrapper appears exactly when the verification key is present. The bug report appears inside it exactly when the report key is present, showing the report with its newlines broken. |
| Sections.IterationPieces | code/json_to_html_converter.py:365-408 | Blocks are the header, then the solution exactly when its key is present (even if empty), then the verification wrapper. The header carries the iteration header text. The solution block shows the solution text unescaped. The bug report shows the broken report. |
| Sections.RunHeaderReadsBack | code/json_to_html_converter.py:333-348 | The shown number reads back as the run number, or the position when that is missing. The style is `failed` exactly for status `failed`; a missing status is not failed. The status text is the status (`unknown` when missing) in capitals. A missing timestamp is shown as the formatted empty text, which is empty when the parser rejects it. |
| Sections.IterationListPieces | code/json_to_html_converter.py:354-359 | Nothing for an empty list. Otherwise a count heading showing the number of iterations, followed by the iterations' outlines in order. |
| Sections.RunPieces | code/json_to_html_converter.py:331-362 | The run header, then the reason line exactly when the reason is non-empty, then the count heading and iteration sections exactly when there is an iteration. The header carries the run header text. The reason line shows the reason. |
| Report.TitleHasNoUnderscore | code/json_to_html_converter.py:497 | The title words, i.e. the title after its fixed prefix, hold no underscore. Each letter in them is a capital exactly when it starts a word. |
| Report.TitleSpellsStem | code/json_to_html_converter.py:497 | The title words have the length of the stem and match it character for character up to case, with each underscore shown as a space. |
| Report.RunsPieces | code/json_to_html_converter.py:511-512 | The run sections' blocks are the runs' outlines in input order. |
| Report.AttemptsPieces | code/json_to_html_converter.py:508-512 | Nothing when there are no runs. Otherwise the attempts heading and then the runs' outlines. |
| Report.ContentPieces | code/json_to_html_converter.py:499-512 | The page content opens the metadata outline, then the statistics, then, only when there are runs, the attempts. The statistics block holds the statistics of the document's runs. |
| Report.StatsReadBack | code/json_to_html_converter.py:504-505 | The statistics block on the page reads back as exactly the statistics of the document. |
| Report.AttemptsShownIffRuns | code/json_to_html_converter.py:508-510 | The attempts heading is on the page if and only if the document has at least one run. |
| Report.RunSectionsMatchStats | code/json_to_html_converter.py:508-512 | The number of run sections on the page equals the total-runs counter. |
| Report.FailedBadgesAreFailedRuns | code/json_to_html_converter.py:338 | The positions whose run badge has the `failed` style are exactly the runs counted as failed. Their number is the failed-runs counter. |
| Report.BadgeFollowsIsCorrect | code/json_to_html_converter.py:377 | The iteration badge style depends on `is_correct` alone. Changing the verification result never changes it. |
| Report.EmptyDocument | code/json_to_html_converter.py:497-515 | A log with empty metadata and an empty run list renders the metadata frame and the statistics block only, with all six counters zero. |

## Left out

- Reading the log file, choosing the output path, writing the page and the console messages. This covers `load_json_file`, the path logic and the write in `convert_json_to_html`, and `main`. All of it is file and console I/O.
- `code/convert_all_json.py` is not part of this model. It is a batch driver around the same I/O.
- JSON decoding. Fields are typed: numbers as integers, texts as strings, `is_correct` as a boolean. A log whose values have other JSON types, and Python's truthiness or type errors on them, is not modelled.
- The date parsing and reformatting in `format_timestamp` is a library call. It is the parameter `parse` of `Sections.FormatTimestamp`: it returns the reformatted text, or nothing when the text is not a date. The `Z` substitution and the raw-text fallback are modelled.
- Python's Unicode case mapping and cased-character rules. `Text.Upper` and `Text.TitleCase` act on ASCII letters only. `Text.Strip` uses Python's whitespace set.
- The style sheet and the script of the page shell. They are fixed texts that depend on no input and are replaced by the placeholders `Report.StyleRules` and `Report.ScriptBody`. The shell around them, with the title in `<title>` and `<h1>`, is exact in `Report.Header` and `Report.Footer`.
- Report.RenderDocument carries no contract of its own. It is the shell head, the flattened `Report.ContentPieces` and the shell foot, and the properties of the page are stated on `Report.ContentPieces`.
- An empty log object, or a file that cannot be loaded, yields no page: `convert_json_to_html` returns early (lines 477-478). The model does not represent that exit. Its `Document(None, None)` also stands for non-empty objects that lack both keys, which do render a page.
- Text.ReplaceAll: its own contract states only that a text without the pattern is unchanged and how the length moves. What the replacement produces is stated by `Text.ReplaceLeftmost`, and for one character by `Text.ReplaceCharByChar`.
- Sections.FormatProblemStatement: for a statement that contains the marker somewhere other than at its start, the contract states only that the result has no surrounding whitespace. It does not describe the full one-pass removal. `Text.ReplaceAll` is that one-pass removal, and a removal can join two parts into a new marker that stays in the text.
- Pieces.SectionListInOrder is stated once for any element renderer. Both list renderers, `Sections.IterationsPieces` and `Report.RunsPieces`, are defined as `Pieces.SectionList`, so the property is not restated for each of them.
- Markup-to-rich-text conversion and list normalisation are absent from the converter's code, so nothing models them.
