# Lesson-report drafting tool: the deterministic core

The application drafts parent-facing tutoring reports. It reads a style
manual and good/bad example reports from three spreadsheet tabs, optionally
looks up a student's two most recent reports, builds one prompt, asks a
hosted generative model for a completion, strips Markdown from the answer
and shows it in a two-column form. It exists in two variants: the CSV-export
front end (`streamlit_app.py`) and the spreadsheet-connection front end
with a live history lookup (`index.py`).

This Dafny project models the parts of both that are plain computation:

- `Markdown` — `clean_markdown`, identical in both files: four `re.sub`
  passes (bold, headings, block quotes, leading `* ` bullets) and
  `str.strip()`, each written as a left-to-right scan with Python's
  semantics (lazy `.*?` that does not cross a newline, greedy `#+`,
  optional `\s?`, `^` under `re.MULTILINE`). Whitespace is CPython's
  Unicode whitespace (`Text.IsSpace`), which includes `\n` and the
  ideographic space U+3000.
- `MarkdownFacts` — what the passes keep, delete and rewrite.
- `Text` — `str.strip`, `sep.join` and f-string interpolation (`Fill`), with
  their layout lemmas; `Split` on one character is not called by the
  application and only serves to read a join back into its pieces.
- `StreamlitApp` — the per-sheet reader (strip every cell, drop `"nan"`, join
  with newlines, `""` and a warning on failure), the switched-off history
  lookup and that variant's prompt.
- `IndexApp` — the all-or-nothing reader (`dropna`, join), the history
  lookup (date formatting, one block per row, placeholder on absence or
  failure; the row loop is a method with a `for` loop) and that variant's
  prompt.
- `Ui` — the 200 MiB size warning, the disabled generate button and what the
  result column shows.

External calls are inputs: a fetched sheet is a `Fetch<Grid>` or
`Fetch<Column>` (`Failed` standing for any exception), the database lookup is
a `Lookup` saying at which stage it stopped, an upload is its size, and the
model's answer is an `Option<string>`.

Behaviour of the code worth knowing:
- The heading and quote passes delete `#` runs and `>` anywhere in the text,
  not only at line starts.
- `clean_markdown` is proved idempotent on text free of `*`, `#` and `>`
  (`MarkdownFacts.CleanIdempotentMarkerFree`); some text with markers is
  unchanged by a second clean too (`"#" + w` cleans to `w`,
  `MarkdownFacts.CleanHeadingIdempotent`). It is not
  idempotent in general: for a plain word `w`, `" * " + w` cleans to `"* " + w`, which cleans to
  `"・" + w` (`MarkdownFacts.CleanNotIdempotent`).
- The CSV reader keeps a cell that holds only whitespace: it strips to `""`,
  which is not `"nan"`, and it becomes an empty line, so whitespace-only cells are not
  dropped (an empty cell reads as missing and is dropped).
- A present text cell `"nan"` (which pandas' default missing-value parsing
  normally reads as missing, see Left out) is dropped by the CSV reader's
  filter and kept by the connection reader's `dropna()`
  (`IndexApp.NanCellKept`).

## Model

| member | source | states |
|---|---|---|
| `Text.Strip` | streamlit_app.py:113 | the result is a contiguous slice of the input that neither begins nor ends with whitespace |
| `Text.StripRemovesSpace` | streamlit_app.py:113 | everything `strip()` cuts off, before and after the slice it keeps, is whitespace |
| `Text.StripNotIn` | streamlit_app.py:113 | stripping introduces no character that was not in the input |
| `Text.StripIdempotent` | streamlit_app.py:36 | stripping an already stripped text changes nothing |
| `Text.JoinHead` | index.py:86 | a join of two pieces or more opens with the first piece and the separator |
| `Text.JoinTail` | index.py:86 | a join of two pieces or more goes on, after the first piece and the separator, with the join of the rest |
| `Text.JoinAt` | index.py:86 | in `sep.join(xs)` every piece appears verbatim at its position, followed by the separator unless it is the last, and the text ends with the last piece |
| `Text.JoinPosOrdered` | index.py:86 | the pieces of a join are laid out left to right without overlap |
| `Text.SplitJoin` | streamlit_app.py:37 | splitting a newline join of newline-free pieces at `\n` gives back the pieces |
| `Text.JoinSplit` | streamlit_app.py:37 | joining the pieces of a split with the separator gives back the text |
| `Text.FillAt` | streamlit_app.py:119-146 | in an f-string each value appears verbatim, right after its literal piece and right before the next one |
| `Text.FillStart` | streamlit_app.py:119 | an f-string begins with its first literal piece |
| `Text.FillEmbeds` | streamlit_app.py:119-146 | every interpolated value appears verbatim at its position, in argument order, without overlap |
| `Markdown.CloseBold` | streamlit_app.py:106 | the closing `**` found is the nearest one with no newline before it; when none is found, every later `**` lies past a newline |
| `Markdown.Bold` | streamlit_app.py:106 | the bold pass never lengthens the text |
| `Markdown.Heading` | streamlit_app.py:108 | no `#` survives the heading pass, and it never lengthens the text |
| `Markdown.Quote` | streamlit_app.py:110 | no `>` survives the quote pass, it brings back no `#`, and it never lengthens the text |
| `Markdown.Bullet` | streamlit_app.py:112 | the bullet pass brings back no `#` and no `>`, and it never lengthens the text |
| `Markdown.Passes` | streamlit_app.py:105-112 | after the four substitutions no `#` and no `>` remain |
| `Markdown.CleanMarkdown` | streamlit_app.py:101-113 | the cleaned text contains no `#` and no `>` and neither begins nor ends with whitespace |
| `MarkdownFacts.CleanKeepsText` | streamlit_app.py:105-113 | ignoring `*`, `#`, `>`, `・` and whitespace, the cleaned text and the input are the same sequence |
| `MarkdownFacts.BoldKeepsText` | streamlit_app.py:106 | the bold pass drops only markup characters and keeps the rest in order |
| `MarkdownFacts.HeadingKeepsText` | streamlit_app.py:108 | the heading pass drops only markup characters and keeps the rest in order |
| `MarkdownFacts.QuoteKeepsText` | streamlit_app.py:110 | the quote pass drops only markup characters and keeps the rest in order |
| `MarkdownFacts.BulletKeepsText` | streamlit_app.py:112 | the bullet pass changes only markup characters and keeps the rest in order |
| `MarkdownFacts.LStripKeepsText` | streamlit_app.py:113 | removing leading whitespace keeps every other character |
| `MarkdownFacts.RStripKeepsText` | streamlit_app.py:113 | removing trailing whitespace keeps every other character |
| `MarkdownFacts.StripKeepsText` | streamlit_app.py:113 | stripping removes only whitespace |
| `MarkdownFacts.StripLeadingSpace` | streamlit_app.py:113 | one whitespace character in front of text that has no whitespace at either end is all that stripping removes |
| `MarkdownFacts.BoldSpan` | streamlit_app.py:106 | `**w**` followed by any text becomes `w` followed by the bold pass of the rest, when `w` has no `*` and no newline |
| `MarkdownFacts.BoldWord` | streamlit_app.py:106 | `**w**` becomes `w` when `w` has no `*` and no newline |
| `MarkdownFacts.BoldUnchanged` | streamlit_app.py:106 | text without `*` passes the bold pass unchanged |
| `MarkdownFacts.BoldCopies` | streamlit_app.py:106 | a character that does not open `**` is copied and the scan goes on after it |
| `MarkdownFacts.BoldItem` | streamlit_app.py:106 | a single `*` followed by a space is not bold markup and is kept |
| `MarkdownFacts.HeadingCopies` | index.py:104 | a character other than `#` is copied by the heading pass and the scan goes on after it |
| `MarkdownFacts.QuoteCopies` | index.py:106 | a character other than `>` is copied by the quote pass and the scan goes on after it |
| `MarkdownFacts.HeadingUnchanged` | index.py:104 | text without `#` passes the heading pass unchanged |
| `MarkdownFacts.QuoteUnchanged` | index.py:106 | text without `>` passes the quote pass unchanged |
| `MarkdownFacts.BulletUnchanged` | index.py:108 | text without `*` passes the bullet pass unchanged |
| `MarkdownFacts.CleanIdempotentMarkerFree` | index.py:97-109 | on text with no `*`, `#` or `>`, whatever whitespace surrounds it, cleaning twice is cleaning once |
| `MarkdownFacts.CleanHeadingIdempotent` | streamlit_app.py:101-113 | a `#` before a plain word that does not start with whitespace cleans to the word, and cleaning again leaves it unchanged |
| `MarkdownFacts.CleanUnchanged` | index.py:97-109 | text with no `*`, `#`, `>` and no whitespace at either end comes back unchanged, so cleaning it twice is cleaning it once |
| `MarkdownFacts.HeadingRun` | index.py:104 | a maximal run of `#` is deleted together with at most one following whitespace character, and the text before it is kept |
| `MarkdownFacts.QuoteMarker` | index.py:106 | a `>` is deleted together with at most one following whitespace character, and the text before it is kept |
| `MarkdownFacts.BulletItem` | streamlit_app.py:112 | a line starting with `*` and a non-newline whitespace character becomes `・` and the rest of the line, and the next line is again a line start |
| `MarkdownFacts.BulletMidLine` | streamlit_app.py:112 | away from a line start, a `*` and everything else on the line is left alone |
| `MarkdownFacts.BulletOpens` | streamlit_app.py:112 | at a line start, `*` and one whitespace character become `・`, and a newline consumed that way makes the next character a line start |
| `MarkdownFacts.BulletCopies` | streamlit_app.py:112 | a character that does not open an item is copied, and only a newline makes the next character a line start |
| `MarkdownFacts.BulletSwallowsNewline` | streamlit_app.py:112 | a `*` followed by a newline at a line start is replaced together with the newline |
| `MarkdownFacts.PassesSpacedItem` | streamlit_app.py:105-112 | `" * " + w` for a plain word `w` goes through the four substitutions unchanged, since its `*` is not at a line start |
| `MarkdownFacts.PassesItemAtStart` | streamlit_app.py:105-112 | `"* " + w` for a plain word `w` comes out of the substitutions as `"・" + w` |
| `MarkdownFacts.CleanBulletAtStart` | streamlit_app.py:101-113 | `"* " + w` cleans to `"・" + w` for a plain word `w` |
| `MarkdownFacts.CleanNotIdempotent` | streamlit_app.py:101-113 | `" * " + w` cleans to `"* " + w` because stripping comes after the bullet pass, and cleaning that again gives the different `"・" + w` |
| `StreamlitApp.KeepCell` | streamlit_app.py:36-37 | a cell is dropped exactly when it strips to `"nan"`; otherwise its stripped text is kept |
| `StreamlitApp.KeptCells` | streamlit_app.py:36-37 | there are never more kept texts than cells |
| `StreamlitApp.KeptCellsMembership` | streamlit_app.py:36-37 | a text is kept exactly when it is not `"nan"` and some cell strips to it |
| `StreamlitApp.KeptCellStripped` | streamlit_app.py:36 | every kept text has no whitespace at either end |
| `StreamlitApp.NanStripped` | streamlit_app.py:36 | a cell reading `"nan"` strips to `"nan"` |
| `StreamlitApp.NanTextDropped` | streamlit_app.py:36-37 | a missing cell and a cell holding the text `"nan"` are both dropped |
| `StreamlitApp.NanRunDropped` | streamlit_app.py:36-37 | cells that all strip to `"nan"` keep nothing |
| `StreamlitApp.NanCellsDropped` | streamlit_app.py:36-37 | a run of cells that keeps nothing leaves the kept texts before and after it as they were, wherever it sits |
| `StreamlitApp.KeptCellsAppend` | streamlit_app.py:36-37 | the filter keeps the cells' order across concatenation |
| `StreamlitApp.StackAppend` | streamlit_app.py:36 | stacking the sheet takes its rows in turn (row-major order) |
| `StreamlitApp.GetSheetText` | streamlit_app.py:25-42 | a warning shows exactly when the read failed; a failed read, or one with nothing kept, yields `""` |
| `StreamlitApp.SheetTextLines` | streamlit_app.py:36-39 | when no kept cell holds a newline, the lines of the sheet text are exactly the kept cells in row-major order |
| `StreamlitApp.LoadLearningData` | streamlit_app.py:44-50 | each of the three texts is the reading of its own sheet |
| `StreamlitApp.SheetFailureIsolated` | streamlit_app.py:40-50 | a failure on one sheet empties that text only and leaves the other two as they were |
| `StreamlitApp.GetStudentHistory` | streamlit_app.py:63-99 | every student id gets the same fixed placeholder |
| `StreamlitApp.PromptEmbedsInputs` | streamlit_app.py:119-146 | the manual, good examples, bad examples, history and lesson notes appear verbatim in the prompt, in that order, without overlap |
| `StreamlitApp.PromptIgnoresStudentId` | streamlit_app.py:115-146 | the prompt is the same whatever the student id |
| `IndexApp.DropNaMembership` | index.py:31 | a text survives `dropna()` exactly when some cell holds it |
| `IndexApp.DropNaAppend` | index.py:31 | `dropna()` keeps the cells' order across concatenation |
| `IndexApp.ColumnTextLines` | index.py:31 | when no present cell holds a newline, the lines of the column text are exactly the present cells in order |
| `IndexApp.NanCellKept` | index.py:31 | a present text cell `"nan"` is kept by `dropna()`, while the CSV reader's filter drops it |
| `IndexApp.LoadLearningData` | index.py:20-46 | any failure (connection or any sheet) makes all three texts `""`; otherwise each text is its column's present cells joined with newlines |
| `IndexApp.FormatDate` | index.py:84 | the date text has ten characters: digits, with `-` at positions 4 and 7 |
| `IndexApp.ParseFormatDate` | index.py:84 | the formatted date reads back as the same date |
| `IndexApp.BlockLayout` | index.py:85 | a block is the header opening, the formatted date, the header closing and the content, each at a fixed place, and the date reads back |
| `IndexApp.Blocks` | index.py:82-85 | there is one block per row, in row order |
| `IndexApp.HistoryLayout` | index.py:81-86 | with rows, the history holds each row's block at its place, in row order, separated by a blank line, and ends with the last block |
| `IndexApp.HistoryNotPlaceholder` | index.py:64-86 | a history with rows starts with a block header and is never the no-history text |
| `IndexApp.HistoryFor` | index.py:59-95 | the result is the no-history text exactly when the lookup did not return rows: no rows, a connection failure or a query error |
| `IndexApp.StudentHistoryAsWritten` | index.py:67-93 | as written, the call raises exactly when the cursor fails on a live connection; otherwise it returns the promised text |
| `IndexApp.CursorFailureEscapes` | index.py:69-93 | a cursor failure on a live connection raises as written, where the no-history text was promised |
| `IndexApp.StudentHistory` | index.py:59-95 | the loop builds one block per row and joins them, so the result is the promised history text; a message is shown exactly on a failed connect, a cursor failure or a query error; a connection that is not up shows nothing |
| `IndexApp.PromptEmbedsInputs` | index.py:115-142 | the manual, good examples, bad examples, history and lesson notes appear verbatim in the prompt, in that order, without overlap |
| `Ui.SizeWarning` | index.py:192-195 | the warning shows exactly for an uploaded file of more than 209715200 bytes |
| `Ui.SizeWarningBoundary` | index.py:194 | exactly 200 MiB gets no warning; one byte more and a 210 MB file do |
| `Ui.GenerateDisabled` | index.py:199 | the generate button is disabled exactly when no file is uploaded |
| `Ui.GenerateClicked` | index.py:199 | a click registers exactly when the button is pressed with a file uploaded |
| `Ui.ResultPanel` | index.py:204-225 | the cleaned report shows exactly when the button was clicked with a file and generation returned non-empty text; a failed (`None`) or empty result shows nothing |
| `Ui.ShownReport` | index.py:199-225 | the upload reminder is unreachable, and a shown report has no `#`, no `>` and no surrounding whitespace |

## Left out

- Streamlit rendering (layout, text areas, code blocks, spinners, titles) is not modelled; warnings and errors appear only as returned flags where a member returns one (`SheetText.warned`, the `reported` result of `IndexApp.StudentHistory`). Three messages are not modelled: the `st.error` on a failed read in `IndexApp.LoadLearningData` (index.py:44), the error shown when generation fails (index.py:172), and the per-sheet warnings, which `StreamlitApp.LoadLearningData` does not carry into the `Corpus`.
- `st.cache_data(ttl=600)` is framework memoization on wall-clock time and is not modelled.
- Fetching the sheets (`pd.read_csv` on a URL, URL quoting, `GSheetsConnection.read`) is network I/O; the model starts from the fetched cells. pandas' own rules for which texts read as missing (its defaults include `"NA"` and `"nan"`, so a cell holding `"nan"` normally arrives missing) are library behaviour: a missing cell is `None`, and a present cell is taken as it reached the filter.
- `astype(str)` of numeric cells (a number read as `1.0`) is not modelled: cells are text.
- The MySQL connection, the query with `ORDER BY created_at DESC LIMIT 2` and closing the connection are an external store; rows are taken as input, already ordered and limited, so "only the two newest of five rows" is the query's job and not modelled.
- `get_db_connection` in `streamlit_app.py` is never called (its imports are commented out) and is not modelled.
- Exceptions other than `mysql.connector.Error` in the history lookup (a missing `mysql` secrets entry, a NULL `created_at`) are not modelled; they propagate in the source.
- IndexApp.FormatDate: covers years 1000 to 9999 only (the MySQL DATETIME range); the zero padding of `%Y` outside that range is not modelled.
- The Gemini upload and completion calls are foreign API calls; the completion is an arbitrary `Option<string>`, `None` when `generate_report` caught an exception.
- Loading `.env` and secrets, and stopping at startup without an API key, are configuration plumbing.
- The MB figure shown for an upload (`size / 1024 / 1024:.2f`) is floating-point display; only the integer comparison is modelled.
- Which sheet names are read (`不良レポート` in one front end, `NGレポート` in the other) is not modelled: each read is an input.

## Findings

| source | as written | input that shows it | evidently intended | confidence | as-written member | corrected member |
|---|---|---|---|---|---|---|
| index.py:67-93 | the `finally` block calls `cursor.close()` whenever the connection is still up, even when `conn.cursor(dictionary=True)` raised before `cursor` was bound, so an `UnboundLocalError` escapes | `conn.cursor(dictionary=True)` raises a `mysql.connector.Error` while `conn.is_connected()` stays true | report the error as a warning and return the no-history text, as the docstring promises for errors | low, not executed | `IndexApp.StudentHistoryAsWritten`, `IndexApp.CursorFailureEscapes` | `IndexApp.StudentHistory`, `IndexApp.HistoryFor` |
