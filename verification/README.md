# RADAR monthly consolidation: merge core in Dafny

`Radar.py` is a daily batch job. It reads the day's report e-mails, follows each
e-mail's "Baixar CSV" link and downloads a CSV export. It then appends the exports to
the month's spreadsheet `RADAR_<YYYY_MM>.xlsx` and uploads that spreadsheet again to
Google Drive. This project models the part of the job that is not I/O:

- **Tables** (`Tables.dfy`): the pandas data frames the merge uses. A `Table` has a
  set of column names and a sequence of rows. Every row maps each column to a cell,
  and `None` is the missing marker (NaN). The module also holds `reindex(columns=…)`
  onto a set (`Reindex`) and onto an ordered header (`Project`, which gives a `Sheet`),
  and `pd.concat` with its outer union of columns (`ConcatAll`).
- **Column unifier** (`Unifier.dfy`): `unify_columns`.
- **Merger** (`Merger.dfy`): the output columns `fixed_columns` and the steps
  concat → unify → append → reindex that run when some e-mail produced a table.
- **Period** (`Period.dfy`): the file name `RADAR_` + `strftime('%Y_%m')` + `.xlsx`, and
  its inverse.
- **Orchestrator** (`Orchestrator.dfy`): `main` as a method. It loads the base table
  or falls back to an empty table with `TAG`. It loops over the messages with a
  catch-and-skip per message, takes the two early exits, and merges. The external
  steps are fields of an `Env` value: HTML part, link lookup, download, `read_csv`
  and `read_excel`. `None` from a step is that step's failure. An empty string or
  empty byte string also counts as failure, as Python's truthiness tests do.

`Merge` is only reached with at least one collected table. With none, `main` logs a
warning and writes and uploads nothing (`Radar.py:276`, `Radar.py:299-300`), so `Run`
ends with `NoData`. A mailbox connection failure is not a separate outcome:
`get_emails_since` returns an empty list, so the run ends with `NoMessages`.

The Drive lookup at `Radar.py:233` is not inside a `try`. An exception from the token
refresh, the file listing or the download (`Radar.py:86`, `Radar.py:101`,
`Radar.py:109`) ends `main` before any message is read; `Run` models this as the
`DriveFailure` lookup result and the `Aborted` outcome. The lookup uses the month's
file name, the same name the sheet is written and uploaded under, so each run of the
month extends the same spreadsheet. When no Drive service is
available, `upload_to_drive` returns without uploading (`Radar.py:115-117`); the
`Written` outcome records whether the sheet reached the Drive.

## Model

| member | source | states |
|---|---|---|
| `Tables.Reindex` | Radar.py:217-218 | rows keep count and order; a kept column keeps its cells, an added column is all missing, other columns are dropped |
| `Tables.ReindexRoundTrip` | Radar.py:217-218 | widening a table's columns and reindexing back onto the original columns gives the original table |
| `Tables.ColumnsOf` | Radar.py:278 | every input table's columns are among the concatenation's columns |
| `Tables.ColumnsOfExact` | Radar.py:278 | every column of the concatenation comes from some input table |
| `Tables.OffsetFirst` | Radar.py:278 | the first table's rows start at position 0 |
| `Tables.OffsetNext` | Radar.py:278 | each table starts where the previous one ends, so the rows are placed one-to-one |
| `Tables.OffsetLast` | Radar.py:278 | the last table ends at the total row count |
| `Tables.OffsetCovers` | Radar.py:278 | every position below the total row count is row i of some table k |
| `Tables.ConcatAll` | Radar.py:278 | `pd.concat` of a non-empty list: columns are the union of the inputs' columns, row count is the sum of the inputs' row counts |
| `Tables.ConcatAllAt` | Radar.py:278 | row i of the k-th table sits at (rows of tables 0..k-1) + i, with its own cells, and missing in every column it lacked |
| `Tables.ConcatPair` | Radar.py:283 | concatenating two tables with the same columns appends the second's rows after the first's |
| `Tables.Project` | Radar.py:286 | reindexing onto an ordered header gives exactly that header, rows with exactly those columns, cells kept or missing |
| `Tables.ProjectIdempotent` | Radar.py:286 | projecting a sheet that already has a header onto that header leaves it unchanged |
| `Unifier.UnifyColumns` | Radar.py:212-220 | both outputs have columns cols(A) ∪ cols(B) ∪ {TAG}; row counts and order are kept; old cells unchanged, new columns missing |
| `Unifier.UnifyLossless` | Radar.py:212-220 | no information loss: dropping the added columns gives back each input |
| `Merger.FixedColumnsDistinct` | Radar.py:41-53 | the output schema has 11 distinct names, TAG last |
| `Merger.Merge` | Radar.py:276-286 | the merged sheet's header is exactly `fixed_columns`; each row has exactly those columns; row count = rows(existing) + Σ rows(incoming) |
| `Merger.MergeKeepsExisting` | Radar.py:281-286 | existing rows come first and keep every output-column cell; an output column the table lacked is missing |
| `Merger.MergeAppendsIncoming` | Radar.py:278-286 | row i of the k-th incoming table lands after the existing rows and after the rows of incoming tables 0..k-1, with its cells or the missing marker |
| `Merger.MergeAppends` | Radar.py:278-286 | both of the above for all rows: append in message order, no row dropped or deduplicated |
| `Merger.MergeRowOrigin` | Radar.py:278-286 | every merged row is an existing row or row i of some incoming table k at the place `MergeAppendsIncoming` gives: no row comes from anywhere else |
| `Merger.MergeDifferingSchemas` | Radar.py:276-286 | existing {Valor, TAG} × 2 rows plus incoming {Pontos, TAG} × 3 rows gives 5 rows; Valor missing in new rows, Pontos missing in old rows |
| `Period.Decimal` | Radar.py:228 | the zero-padded `%Y` / `%m` rendering has exactly the given width and only digits |
| `Period.PeriodKey` | Radar.py:228 | `strftime('%Y_%m')` is 7 characters with `_` at position 4 |
| `Period.PeriodFileName` | Radar.py:229 | the name is 18 characters, starts with `RADAR_` and ends with `.xlsx` |
| `Period.DecimalRoundTrip` | Radar.py:228 | the zero-padded decimal rendering of a number reads back as that number |
| `Period.PeriodFileNameRoundTrip` | Radar.py:228-229 | the year and month are read back from the file name |
| `Period.ParsePeriodFileNameSound` | Radar.py:228-229 | every name that reads as a period is that period's file name |
| `Period.OneFilePerMonth` | Radar.py:228-229 | two periods share a file name if and only if they are the same year and month |
| `Period.PeriodFileNameExample` | Radar.py:228 | December 2024 gives `RADAR_2024_12.xlsx` |
| `Orchestrator.ProcessMessage` | Radar.py:254-274 | a message yields a table if and only if HTML, link, download and CSV parse all succeed, and the table is the parser's result; each skip reason holds exactly when its step is the first to fail |
| `Orchestrator.Contributions` | Radar.py:252-274 | the `all_dfs` list: at most one table per message, and one per message when every message succeeds |
| `Orchestrator.ContributionsAppend` | Radar.py:252-274 | the collected list of a message sequence split in two is the two lists appended |
| `Orchestrator.SkipOnlyThatMessage` | Radar.py:254-274 | a failing message contributes nothing and does not change what the others contribute |
| `Orchestrator.ParsedMessageContributes` | Radar.py:261-268 | a successful message adds its table between the tables of the messages before and after it |
| `Orchestrator.ContributionsInOrder` | Radar.py:252-274 | the j-th collected table is the table of the j-th successful message, in increasing message order, and every successful message is counted |
| `Orchestrator.MiddleMessageWithoutLink` | Radar.py:261-274 | of three messages, the middle one without a link is skipped and the other two contribute in order |
| `Orchestrator.BaseTable` | Radar.py:233-245 | Drive file missing or unreadable gives columns {TAG} and no rows; otherwise the parsed file |
| `Orchestrator.Run` | Radar.py:222-302 | the base table is the Drive lookup of the month's file name `RADAR_<YYYY_MM>.xlsx`; an exception in that lookup gives `Aborted`; otherwise no messages gives `NoMessages` and no table gives `NoData`; otherwise it writes `Arquivos/RADAR_<YYYY_MM>.xlsx` for upload under the same name, the sheet is the merge of the base table with the collected tables, and `uploaded` says whether writing and uploading succeeded |

## Left out

- The IMAP session, folder selection, search and fetch loop (`get_emails_since`) are network I/O. The messages are an input sequence, and the `strftime('%d-%b-%Y')` search date is not modelled. Connection and login failures (`Radar.py:134-142`) and per-message fetch failures (`Radar.py:169-178`) are caught; a failed fetch only leaves that message out of the input sequence. An exception escaping `mail.select`, `mail.search`, `mail.close` or `mail.logout` (`Radar.py:145`, `Radar.py:152`, `Radar.py:156-157`, `Radar.py:162-163`, `Radar.py:180-181`) ends `main`, and that abort is not modelled.
- Google Drive authentication, lookup, download and delete-then-upload are foreign-library calls. The lookup is the `driveLookup` oracle of `Env`, applied to the month's file name: an escaping exception, no file (no service, or no file of that name), or the downloaded content.
- A failing `to_excel`, an exception in `upload_to_drive` (`Radar.py:295-296`) and a missing Drive service at upload time (`Radar.py:115-117`) are folded into one input flag, `uploadSucceeds`, reported as `Written.uploaded`; the model does not say whether the local file was written in that case. The `except` around the merge (`Radar.py:297-298`) has no counterpart, because concatenation and reindexing cannot fail in the model.
- `extract_html_content`, `extract_csv_link_from_html`, `download_csv_from_link`, `pd.read_csv` and `pd.read_excel` are oracles in `Env`. MIME walking, charset decoding, HTML parsing, the 30-second timeout and CSV/XLSX parsing are not modelled. `to_excel` serialisation is not modelled either.
- Cell values are text or integers. pandas dtype coercion (NaN turning int columns into floats), floating point and dates are not modelled.
- The row index is not modelled (`ignore_index=True` makes it 0..n-1), and neither is the column order of the unified intermediate tables, which a Python set leaves unspecified.
- `PeriodFileName`: covers years 1000 to 9999 only, because `%Y` for earlier years depends on the platform and `datetime.now()` does not yield them.
- Logging, `.env` configuration, the `Arquivos` directory creation and `datetime.now()` are left out. The year and month are inputs.
