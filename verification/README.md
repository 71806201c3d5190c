# Chemical Equipment Visualizer — the dataset back end, in Dafny

This project models the server core of the Chemical Equipment Visualizer.
A user uploads a CSV of equipment (name, type, flowrate, pressure,
temperature). The back end then:

- normalises the column names and checks the five required columns;
- computes a summary: row count, the three column means, and the type
  distribution in the order `value_counts()` gives it;
- stores the summary as a dataset and keeps only the five most recent;
- lists the stored datasets newest first;
- draws a one-dataset PDF report, either the one `download_report` draws
  or the one `generate_pdf` draws.

Modules:

- `Analysis` (analysis.dfy): `analyze_csv` in backend/equipment/utils.py.
  - The input is a table that has already been parsed: a header and rows
    of cells, each row as wide as the header.
  - A cell is a number or a text.
  - Failures are values of `AnalysisError`: a missing column (the
    `ValueError` of the column check), or a non-numeric cell in a column
    whose mean is taken. Pandas raises on the latter, and the upload view
    catches it like any other exception.
- `Sorting` (sorting.dfy): the stable descending sort used for
  `value_counts()` and for `order_by("-uploaded_at")`.
- `Views` (views.py): the dataset table as a class `Store`.
  - Its `records` field is the table. `nextId` and `clock` stand for the
    auto-increment id and the `auto_now_add` time stamp.
  - A ghost `uploads` holds every dataset ever created. The invariant
    `Valid` ties the table to the five newest of them.
  - `Upload`, `History` and `DownloadReport` are `UploadCSVView.post`,
    `HistoryView.get` and `download_report`.
- `Report` (views.py:91-117): the drawing loop of `download_report`.
- `Pdf` (utils_pdf.py): `generate_pdf`.
- `Canvas` (canvas.dfy): the two renderers return the `drawString` calls
  they make as `Line`s: page, x, y, font and text. `Datasets`
  (datasets.dfy) holds the stored record.

Both renderers and the table updates are methods with loops, proved
against functions (`ReportLines`, `PdfLines`, `Retain`, `Newest`). Lemmas
then give those functions their meaning in closed form. The analysis is
written as functions and lemmas.

## Model

| member | source | states |
|---|---|---|
| Analysis.ToLower | backend/equipment/utils.py:8 | A to Z become the letter 32 code points higher (a to z); every other character is unchanged. |
| Analysis.Normalize | backend/equipment/utils.py:8 | A normalised name has no whitespace at either end and no upper-case letter, and is never longer than the original. |
| Analysis.NormalizePadded | backend/equipment/utils.py:8 | A name with no whitespace at either end, surrounded by whitespace, normalises to exactly its lower-case form. |
| Analysis.NormalizeTypeHeader | backend/equipment/utils.py:8 | The header " Type " normalises to the required name "type". |
| Analysis.NormalizeIgnoresPadding | backend/equipment/utils.py:8 | Whitespace around a name does not change its normalised form (" Type " and "Type" agree). |
| Analysis.NormalizeIgnoresCase | backend/equipment/utils.py:8 | Lower-casing a name first does not change its normalised form. |
| Analysis.NormalizeIdempotent | backend/equipment/utils.py:8 | Normalising twice is the same as normalising once. |
| Analysis.FirstMissingFrom | backend/equipment/utils.py:9-19 | The check finds nothing exactly when every required name is present. Otherwise it names the first required name, in the fixed order, that is absent; every name before it is present. |
| Analysis.ExtraColumnsIgnored | backend/equipment/utils.py:17-19 | Columns beyond the required ones never change the outcome of the check. |
| Analysis.RowRecord | backend/equipment/utils.py:48 | A row's record has exactly the header's (normalised) names as keys. |
| Analysis.RowRecordValues | backend/equipment/utils.py:48 | Each cell sits under its column's name, unless a later column has the same name. |
| Analysis.Records | backend/equipment/utils.py:48 | One record per row, in row order: record i is the RowRecord of row i. |
| Analysis.RecordsHaveRequired | backend/equipment/utils.py:17-21 | Once the check passes, every record carries all five required keys. |
| Analysis.ColumnMean | backend/equipment/utils.py:40-42 | The mean fails exactly when some cell is not numeric. It is NaN exactly when there are no rows. Otherwise mean × count = sum. |
| Analysis.MeanWithinBounds | backend/equipment/utils.py:40-42 | The mean of a non-empty numeric column lies between any lower and upper bound of its values. |
| Analysis.Distinct | backend/equipment/utils.py:27 | The distinct values of the type column, each once: no repeats, and the same set of values as the column. |
| Analysis.Kinds | backend/equipment/utils.py:27 | The index of value_counts() is a rearrangement of the column's distinct values (equal multisets). |
| Analysis.KindsOrdered | backend/equipment/utils.py:27 | The index of value_counts() has no repeats and is ordered by non-increasing count. |
| Analysis.KindsCover | backend/equipment/utils.py:27 | Every value of the type column is in the index, and every index value occurs in the column. |
| Analysis.KindsTotal | backend/equipment/utils.py:27 | The counts over the index add up to the number of rows. |
| Analysis.TabulateTallies | backend/equipment/utils.py:29-35 | Tabulating distinct values that are ordered by count and cover the column gives raw, labels and values that agree entry by entry: each count is the value's occurrence count and at least 1. |
| Analysis.Distribution | backend/equipment/utils.py:27-35 | The type distribution tallies the column: one entry per distinct value with its exact count, most frequent first. labels[i] and values[i] are raw's i-th key and count. |
| Analysis.DistributionTotal | backend/equipment/utils.py:33-38 | The chart values add up to total_equipment. |
| Analysis.LookupFinds | backend/equipment/utils.py:30 | Looking up an entry's key in raw, with no earlier entry carrying that key, yields that entry's count. |
| Analysis.RawMapsTypesToCounts | backend/equipment/utils.py:30 | raw, read as a dict, maps each type value in the column to its count and has no other key. |
| Analysis.Summarize | backend/equipment/utils.py:21-45 | Means are taken in the order flowrate, pressure, temperature. The error names the first column that fails, and only a failing mean gives an error. On success: the averages are the three means, total_equipment is the row count, and the distribution tallies the type column. |
| Analysis.Analyze | backend/equipment/utils.py:5-48 | A missing required column gives exactly the MissingColumn error for the first one missing. Once the check passes, the result is Summarize of the row records, so the averages and the order of mean errors are those Summarize states. A mean error names flowrate, pressure or temperature. On success: all five names are among the normalised columns, the data is the row records, total_equipment is the number of rows, and the type distribution tallies the type column. |
| Sorting.Insert | backend/equipment/utils.py:27 | Insertion adds exactly one element: the multiset grows by x. |
| Sorting.SortDesc | backend/equipment/utils.py:27 | The sort is a permutation of its input. |
| Sorting.SortDescOrdered | backend/equipment/utils.py:27 | The sort's output has non-increasing keys and keeps a repeat-free input repeat-free. |
| Views.OldestIndex | backend/equipment/views.py:54 | The position of an upload no later than any other, and the first such. |
| Views.Retain | backend/equipment/views.py:53-54 | Up to five records nothing changes. Above five, exactly one record is removed, one with the earliest upload time; the rest keep their order. |
| Views.InsertKeepsNewest | backend/equipment/views.py:48-54 | Creating a dataset newer than all others and then evicting keeps exactly the five newest uploads. Below five nothing is removed; at five the oldest goes. |
| Views.Recent | backend/equipment/views.py:68 | The listing has min(count, 5) entries, and they are distinct rows of the table: its multiset is contained in the table's. |
| Views.RecentIsNewestFirst | backend/equipment/views.py:68 | The listing holds min(count, 5) distinct rows of the table in non-increasing upload time, and all of them when there are at most five. |
| Views.RecentOmitsOnlyOlder | backend/equipment/views.py:68 | No record the listing leaves out is newer than a record it lists. |
| Views.SortChronological | backend/equipment/views.py:68 | Sorting a table stored in upload order by descending time reverses it. |
| Views.Find | backend/equipment/views.py:84-89 | The lookup fails exactly when no record has the id. A found record has that id and is in the table. |
| Views.Store.Oldest | backend/equipment/views.py:54 | The loop returns the first position of the earliest upload time in the table. |
| Views.Store.Insert | backend/equipment/views.py:48-54 | The new dataset gets the next id and the current time. The table becomes Retain(table + [new]): appended below five, the oldest dropped at five. The store invariant is kept. |
| Views.Store.Upload | backend/equipment/views.py:32-59 | An invalid form or a refused table answers 400 and leaves the store unchanged. Otherwise the dataset is stored as Insert states, and the summary and records are answered with 201. |
| Views.Store.History | backend/equipment/views.py:67-70 | The listing is the table in reverse: at most five datasets, upload times strictly decreasing. |
| Views.Store.DownloadReport | backend/equipment/views.py:83-124 | 404 exactly when no stored dataset has the id. Otherwise an attachment for the requested id holding the report of that dataset, drawn with no page break. |
| Report.DrawHeader | backend/equipment/views.py:94-109 | The four header lines at 800, 760, 735 and 695 in their fonts. The cursor is left at 670 and the font at Helvetica 11. |
| Report.DrawItems | backend/equipment/views.py:110-115 | The loop draws exactly ItemLines and makes exactly ItemBreaks page breaks. |
| Report.RenderReport | backend/equipment/views.py:91-117 | The report is the header followed by the summary items, with the matching number of page breaks. |
| Report.SlotY | backend/equipment/views.py:110-115 | An item is never drawn below 100 or above 800. |
| Report.ItemBreaksCount | backend/equipment/views.py:110-115 | The loop makes exactly as many showPage calls as the page the next item would land on: starting from page p, p + breaks = SlotPage(y, p, count of items). |
| Report.ItemLinesLayout | backend/equipment/views.py:110-115 | Closed form of the pagination. From cursor y, the first (y-100)/20+1 items go 20 apart on the current page. After that come full pages of 36 items from 800 down to 100, drawn in the page's initial font. |
| Report.ReportLayout | backend/equipment/views.py:94-115 | A stored summary's report is 7 lines. The fixed header comes first. The three items follow at 670, 650 and 630 on the first page, with no page break. |
| Pdf.GeneratePdf | backend/equipment/utils_pdf.py:6-47 | The method draws exactly PdfLines and calls showPage once. |
| Pdf.EntryLinesLayout | backend/equipment/utils_pdf.py:41-44 | Entry i is drawn at x = 70, offset + 18·i below the top, in `raw` order. |
| Pdf.PdfLayout | backend/equipment/utils_pdf.py:11-46 | The PDF has 9 + |raw| lines, all on one page, each strictly lower than the one before. The nine fixed lines are at x = 50. Entry i is at x = 70 and 290 + 18·i below the top. |
| Pdf.PdfFonts | backend/equipment/utils_pdf.py:11-44 | The title is bold 16 and the two section headers bold 12. Every other line is Helvetica 11. |

## Left out

- CSV parsing (`pd.read_csv`): the model starts from a parsed, rectangular table of numbers and texts.
  - Empty cells, which pandas reads as NaN and skips in means, are not modelled.
  - Malformed files, which pandas refuses, are not modelled either.
- Rounding and floating point: means are exact reals. The rounded `avg_*` values at utils.py:23-25 are never used, so they are left out.
- Non-ASCII `strip()` and `lower()`. The model strips ASCII whitespace and the separators U+001C to U+001F. It lower-cases A to Z only.
- Two columns whose names coincide after normalisation. Only the record, where the later column wins, is modelled.
  - Pandas then returns a frame, not a column, for `df["type"]`.
  - For a repeated flowrate, pressure or temperature column, `float(...mean())` raises and the upload view answers 400. The model instead averages the later column, so `Analyze` succeeds and `Upload` stores the dataset.
- The text of the 400 response (`str(e)`, views.py:44): only the error kind and its column are kept, not the message of the `ValueError` or of pandas' exception.
- The database, serializers, authentication and the HTTP layer.
  - Form validity is a boolean parameter.
  - A response is one of the modelled variants, without bodies or headers.
  - The GET handler of the upload view and `HomeView` are not modelled.
  - URL routing is not modelled.
- Summaries are stored as JSON. The model assumes that key order survives storage. It also assumes that a type value is never confused with another one that has the same text, since JSON object keys are strings.
- Time stamps come from a clock that rises on every successful upload. Concurrent uploads and equal time stamps are not modelled. Ties among equal counts in `value_counts()` keep first-seen order, and no contract depends on that.
- How Python prints a value inside an f-string: the `Shown` values stand for the text. PDF encoding, fonts and page size are not modelled.
  - `generate_pdf` places lines as offsets below the top of an A4 page rather than as absolute heights.
  - The pages themselves and the font reset after `showPage` are modelled. The blank trailing page that `save()` may add after a final `showPage` is not.
- `generate_pdf` is imported by views.py but not called by any view. It is modelled on its own.
- The desktop and web front ends.
