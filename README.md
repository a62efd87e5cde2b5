# Metric-family summary of `graph-results.py`, in Dafny

`scripts/graph-results.py` loads one benchmark result table per model. It then
draws one chart per metric family, where a family is a row-label prefix such as
`requests_per_minute_(qpm)`. Finally it writes a report whose last page names the
best model of every family. This project models the logic inside that pipeline
and proves what it guarantees:

- **`safe_filename`** (module `Sanitize`). A maximal run of the characters
  `\ / : " * ? < > |` becomes a single `_`. The result is free of them, no longer
  than the input, and equal to an independent one-character-at-a-time
  definition. It leaves clean names unchanged, is idempotent, and keeps every
  other character in order.
- **The grouping in `plot_metrics`** (module `Grouping`). The row labels of the
  first (representative) table, except `concurrency`, are collected under every
  configured prefix they start with. Every non-empty group gets a chart, saved
  under the sanitised family name. Three exceptions are modelled as error values:
  - no tables at all;
  - a representative table without a `concurrency` row;
  - a model without a row that is being drawn.
- **The `summary` and `top_models` loops of `create_pdf`** (module `Summary`).
  - For every family and model, the value is the maximum ("higher") or the
    minimum (anything else) over all cells of that model's rows starting with
    the prefix.
  - The top model is then chosen exactly as Python's `max`/`min` with `key=`
    chooses it: the best value wins, and the earliest model wins a tie.
  - The `KeyError` of a family without a `better` setting and the `ValueError`
    of a family nobody has rows for are modelled as error values, in the order
    the loops reach them.
- **Module `Report`** relates the two stages. It also holds the corrected top-model
  table described under "## Findings".
- **Modules `Fixtures` and `Scenarios`** hold a two-model benchmark (qpm
  `[5, 50]` against `[6, 40]`) worked through the model. Model A is the top qpm
  model. A configured family without rows gets no chart, aborts the report as
  written, and is skipped by the corrected report.

The system's documentation says that a configured family matching no row causes
"no crash". The code disagrees: it raises `ValueError` at line 95 or 97. The model
follows the code, and the corrected behaviour is given as a finding.

Data representation (module `Tables`):

- A table is a sequence of labelled rows of integer cells. Only comparisons
  matter, so integers stand in for the floats.
- The loaded data is a sequence of named tables in the dictionary's insertion
  order, so the order behind every "first" and every tie-break is explicit.
- Model names are file base names, i.e. dictionary keys. The lemmas that need
  them unique require `DistinctNames`.
- pandas tables are rectangular, so every row has at least one cell whenever
  the table has data columns. The summary stage requires this
  (`AllRowsNonEmpty`).

## Model

| member | source | states |
|---|---|---|
| Sanitize.SkipRun | scripts/graph-results.py:18 | consuming the `+` of the pattern: the rest is a suffix, starts with an allowed character or is empty, and everything skipped is forbidden |
| Sanitize.SafeFilename | scripts/graph-results.py:17-18 | the sanitised name holds no forbidden character and is no longer than the input |
| Sanitize.ScanInsideRun | scripts/graph-results.py:18 | inside a run, the character-wise reading drops exactly the rest of the run |
| Sanitize.SafeFilenameIsScan | scripts/graph-results.py:18 | the substitution equals the character-wise reading: every maximal run becomes exactly one `_`, everything else is copied |
| Sanitize.CleanUnchanged | scripts/graph-results.py:18 | a name without forbidden characters is returned unchanged |
| Sanitize.CleanPrefixCopied | scripts/graph-results.py:18 | a clean front part is copied as it is and the rest is sanitised independently |
| Sanitize.SafeFilenameIdempotent | scripts/graph-results.py:18 | sanitising twice equals sanitising once |
| Sanitize.PlainOfRun | scripts/graph-results.py:18 | skipping a run of forbidden characters loses no plain character |
| Sanitize.SafeFilenameKeepsPlain | scripts/graph-results.py:18 | the characters other than the forbidden ones and `_` survive, in their original order |
| Tables.OccurrencesPositive | scripts/graph-results.py:31 | a prefix occurs in the prefix list a positive number of times exactly when it is listed |
| Grouping.AddMetric | scripts/graph-results.py:31-33 | one label is appended to every group it starts with, once per listing of that prefix; no key is added or removed, other groups are unchanged |
| Grouping.OccurrencesOfPrefix | scripts/graph-results.py:31 | visiting one more prefix adds one listing exactly when it is that prefix |
| Grouping.AppendStep | scripts/graph-results.py:31-33 | one visit of the inner loop appends the label to the visited prefix's group if it starts with it, and leaves every other group as it was |
| Grouping.GroupMetrics | scripts/graph-results.py:27-33 | there is a key for exactly the configured prefixes, and each group is the label-ordered list of the labels joining it, `concurrency` skipped |
| Grouping.CopiesMembers | scripts/graph-results.py:33 | repeated appends add only that label, and only if there was at least one |
| Grouping.GroupMembers | scripts/graph-results.py:27-33 | a label is in the group of `p` exactly when it is a label of the representative table, is not `concurrency`, starts with `p`, and `p` is configured; so a label joining several prefixes is in each group |
| Grouping.GroupIsSelection | scripts/graph-results.py:28-33 | a prefix configured once gets exactly the order-preserving selection of its labels |
| Grouping.SelectCounts | scripts/graph-results.py:28-33 | no matching label is dropped or duplicated: it occurs in the group as often as among the labels |
| Grouping.SelectInOrder | scripts/graph-results.py:28-33 | the group keeps the representative table's row order |
| Grouping.KeyOrder | scripts/graph-results.py:27 | the dictionary's keys in insertion order are the configured prefixes, each once |
| Grouping.KeyOrderFirstSeen | scripts/graph-results.py:27 | insertion order: before the first occurrence of each key only the keys listed before it occur among the prefixes |
| Grouping.FirstSeenExtends | scripts/graph-results.py:27 | appending a prefix leaves the first occurrence of every key already inserted unchanged |
| Grouping.FirstLacking | scripts/graph-results.py:40-41 | the first model, in data order, without the drawn row; none exactly when every model has it |
| Grouping.SeriesFailureCases | scripts/graph-results.py:39-41 | drawing one chart fails exactly when some model lacks one of its metrics, and the failure names such a model and metric |
| Grouping.DrawFailureCases | scripts/graph-results.py:35-41 | drawing the charts fails exactly when drawing one of them fails, with that chart's failure |
| Grouping.FindRow | scripts/graph-results.py:22 | the label lookup finds a row exactly when the table has one with that label |
| Grouping.FindLacking | scripts/graph-results.py:40-41 | the model loop stops at the first model lacking the metric |
| Grouping.DrawChart | scripts/graph-results.py:39-41 | the series loop fails on the first metric and model without a row, and succeeds otherwise |
| Grouping.DrawCharts | scripts/graph-results.py:35-52 | the groups are visited in key order, empty ones are skipped, and the result is the chart list or the first drawing failure |
| Grouping.PlotMetrics | scripts/graph-results.py:20-52 | `plot_metrics` ends with the outcome `PlotOutcome` describes |
| Grouping.PlotOutcomeCases | scripts/graph-results.py:21-41 | fails on no tables exactly when there are none; fails on `concurrency` exactly when the representative table lacks it; succeeds, with the charts of the representative labels, exactly when every model has every drawn metric (row lookups only: see "## Left out") |
| Grouping.ChartsForPrefix | scripts/graph-results.py:35 | visiting fewer keys draws a prefix of the charts |
| Grouping.DrawFailureOfAppend | scripts/graph-results.py:35-41 | after charts that drew without failure, the next chart's failure is the first one |
| Grouping.DrawFailureOfPrefix | scripts/graph-results.py:35-41 | the first failure among earlier charts is the first failure overall |
| Grouping.ChartsForMembers | scripts/graph-results.py:35-50 | a chart is drawn for a visited key exactly when its group is non-empty, and it carries the group and the sanitised `.png` name |
| Grouping.ChartedExactly | scripts/graph-results.py:35-50 | a family is charted exactly when it is configured and some label joins it; every chart carries its non-empty group and the file `safe_filename(prefix).png` |
| Grouping.ChartsDistinct | scripts/graph-results.py:35-37 | no family is charted twice, even when it is configured twice |
| Summary.DirectionOf | scripts/graph-results.py:87-90 | the maximum is taken exactly for the setting "higher"; every other value selects the minimum |
| Summary.Matching | scripts/graph-results.py:85 | the relevant rows are no more than the rows of the table |
| Summary.MatchingInOrder | scripts/graph-results.py:85 | the relevant rows keep the table's row order |
| Summary.MatchingMembers | scripts/graph-results.py:85 | a row is relevant exactly when it is a row of the table whose label starts with the prefix |
| Summary.MatchingNonEmptyIff | scripts/graph-results.py:85-86 | there are relevant rows exactly when some label of the table starts with the prefix |
| Summary.Cells | scripts/graph-results.py:88 | with non-empty rows there are at least as many cells as rows |
| Summary.Max | scripts/graph-results.py:88 | the maximum is a cell and at least every cell |
| Summary.Min | scripts/graph-results.py:90 | the minimum is a cell and at most every cell |
| Summary.MatchingKeepsNonEmpty | scripts/graph-results.py:85 | the relevant rows of a table whose rows all hold a value also all hold a value |
| Summary.CellsOfAppend | scripts/graph-results.py:88 | the cells of one more row are the cells so far followed by that row's |
| Summary.MatchingCells | scripts/graph-results.py:85-90 | a value is among the cells of the relevant rows exactly when some row starting with the prefix holds it |
| Summary.CellComesFromRow | scripts/graph-results.py:85-88 | every cell of the relevant rows comes from a row starting with the prefix |
| Summary.RowCellIsCell | scripts/graph-results.py:85-88 | every cell of a row starting with the prefix is among the cells the extreme is taken over |
| Summary.FamilyValueIsExtreme | scripts/graph-results.py:85-90 | a model's family value equals some cell of its rows starting with the prefix, and is at least as good as every such cell in the family's direction |
| Summary.EntriesMembers | scripts/graph-results.py:84-90 | `summary[p]` has an entry for a model exactly when that model's own table has a row starting with `p`, and the entry holds its family value |
| Summary.EntryComesFromModel | scripts/graph-results.py:84-88 | every entry of `summary[p]` is the family value of a model with a row starting with `p` |
| Summary.EntriesNonEmptyIff | scripts/graph-results.py:84-86 | `summary[p]` is non-empty exactly when some model has a row starting with `p` |
| Summary.EntriesDistinct | scripts/graph-results.py:84-88 | with distinct model names, no model has two entries |
| Summary.EntriesOfPrefix | scripts/graph-results.py:84-88 | the entries of the first models are a prefix of all entries |
| Summary.EntryPosition | scripts/graph-results.py:84-88 | a model's entry comes right after the entries of the matching models before it |
| Summary.EntryOrder | scripts/graph-results.py:84-88 | the entries keep the data order |
| Summary.BestIndex | scripts/graph-results.py:95-97 | `max`/`min` with `key=` picks a candidate at least as good as every other and strictly better than every earlier one: the first best |
| Summary.FirstMissing | scripts/graph-results.py:82-87 | the summary loop fails on a family without a setting exactly when some model has rows for it; the family named is one such, and every family before its first occurrence has a setting or no rows |
| Summary.FirstMissingShift | scripts/graph-results.py:82-87 | when the first family has a setting or no rows, the first failing family of the rest is the first of the whole list |
| Summary.FirstMissingStep | scripts/graph-results.py:82-87 | the summary loop's first missing setting is the current family's, if it has rows and no setting, or else one of a later family |
| Summary.SummariesStep | scripts/graph-results.py:82-90 | one more family visited adds that family's entries to `summary` and nothing else |
| Summary.SummariseFamily | scripts/graph-results.py:83-90 | one family's entries are built in data order, or the setting's `KeyError` is raised at the first model with rows |
| Summary.BuildSummary | scripts/graph-results.py:81-90 | the summary loop ends with `SummaryTable`: the first missing setting, or every family mapped to its entries |
| Summary.FirstTopFailure | scripts/graph-results.py:93-97 | the top-model loop succeeds exactly when every family has a setting and a non-empty summary; otherwise the failure is the `KeyError` of an unconfigured family or the `ValueError` of an empty one, and every family before its first occurrence has a setting and a non-empty summary |
| Summary.TopFailureShift | scripts/graph-results.py:93-97 | when the first family selects a model, the first failure of the rest is the first of the whole list |
| Summary.TopFailureStep | scripts/graph-results.py:93-97 | the top-model loop's first failure is the current family's `KeyError` or `ValueError`, or else one of a later family |
| Summary.WinnersStep | scripts/graph-results.py:93-97 | one more family visited adds that family's winner to `top_models` and nothing else |
| Summary.SelectTopModels | scripts/graph-results.py:92-97 | the top-model loop ends with `TopTable`: the first failure, or every family mapped to its winner |
| Summary.TopModels | scripts/graph-results.py:81-97 | both loops together end with `ReportTopModels` |
| Summary.ReportOutcome | scripts/graph-results.py:81-97 | the summary page exists exactly when every family has a setting and some model with rows for it; a failure names such a family and says which of the two it lacks |
| Summary.FirstFamilyWithoutDataFails | scripts/graph-results.py:92-97 | with every family configured, the report as written fails with `ValueError` on the first family nobody has rows for |
| Summary.TopFailureAt | scripts/graph-results.py:93-97 | with every family configured, the top-model loop fails on the first family with an empty summary |
| Summary.WinnerIsBest | scripts/graph-results.py:84-97 | the winner of a family is a model with rows for it whose value is at least as good as every other such model's and strictly better than every earlier one's |
| Summary.BestAtPosition | scripts/graph-results.py:84-97 | the model whose entry `max`/`min` picks has a value at least as good as every model with rows and strictly better than every earlier one |
| Summary.TopModelIsBest | scripts/graph-results.py:81-97 | when every family has a setting and some model with rows for it, the page exists and `top_models[p]` is the best model of family `p` in its direction, the earliest among equals |
| Report.ChartedFamilyIsSummarised | scripts/graph-results.py:84-86 | a charted family has a summary entry, and the representative table's model comes first in it |
| Report.FirstUnconfigured | scripts/graph-results.py:94 | a family without a setting before whose first occurrence every family has one; none exactly when all have one |
| Report.UnconfiguredShift | scripts/graph-results.py:94 | when the first family has a setting, the first unconfigured family of the rest is the first of the whole list |
| Report.TopTableSkippingEmpty | scripts/graph-results.py:92-97 | corrected: the table exists exactly when every family has a setting, lists exactly the families with a non-empty summary, and each holds the model `max`/`min` returns: the earliest entry with the best value, strictly better than every entry before it |
| Report.SkippingAgreesWithOriginal | scripts/graph-results.py:92-97 | wherever the report as written succeeds, the corrected one gives the same table |
| Report.CorrectedReportListsFamiliesWithData | scripts/graph-results.py:81-97 | with every family configured, the corrected page exists and lists exactly the families some model has rows for |
| Scenarios.RelevantRows | scripts/graph-results.py:85 | in the benchmark, each model's only qpm row is its relevant row; `concurrency` does not match |
| Scenarios.QpmValues | scripts/graph-results.py:87-88 | the qpm values of models A and B are 50 and 40 |
| Scenarios.OneRowOfTwoCells | scripts/graph-results.py:87-88 | a model whose only relevant row is `[x, y]` with `x <= y` has the value `y` in a "higher" family |
| Scenarios.QpmSummary | scripts/graph-results.py:84-88 | `summary[qpm]` is A: 50 followed by B: 40 |
| Scenarios.TwoModelsBothMatching | scripts/graph-results.py:84-88 | when both of two models have relevant rows, `summary[p]` holds the first model's entry and then the second's |
| Scenarios.QpmSummaryTable | scripts/graph-results.py:81-90 | the summary loop produces exactly that one family |
| Scenarios.OneFamilySummary | scripts/graph-results.py:81-90 | with one configured family, the summary loop maps exactly that family to its entries |
| Scenarios.OneFamilyTop | scripts/graph-results.py:92-97 | with one configured family and a non-empty summary, `top_models` maps exactly that family to its winner |
| Scenarios.FirstOfTwoWins | scripts/graph-results.py:95 | of two candidates, the first wins a "higher" family when its value is at least the second's, ties included |
| Scenarios.QpmTopModel | scripts/graph-results.py:92-95 | model A is the top qpm model |
| Scenarios.NoTtftRows | scripts/graph-results.py:85 | no model has a time-to-first-token row, while some model has a qpm row |
| Scenarios.NoTtftChart | scripts/graph-results.py:35-37 | the time-to-first-token family gets no chart |
| Scenarios.FamilyWithoutDataAbortsReport | scripts/graph-results.py:95-97 | configuring that family makes the report as written fail with `ValueError` on it |
| Scenarios.SecondFamilyWithoutDataFails | scripts/graph-results.py:92-97 | with two configured families of which only the first has rows, the report as written fails with `ValueError` on the second |
| Scenarios.OnlyFirstHasData | scripts/graph-results.py:84-86 | of two families, exactly the one with rows has summary entries |
| Scenarios.CorrectedReportSkipsFamilyWithoutData | scripts/graph-results.py:92-97 | the corrected report succeeds and lists only qpm |

## Left out

- `load_csv_files` (lines 7-15): directory listing, CSV parsing and file-name
  stripping are file-system I/O and library parsing. The data arrives as a
  parameter, in the dictionary's insertion order.
- matplotlib (lines 38-52), except the row lookups of line 41 and the file name of
  lines 49-50: figures, labels, legends and the saved image are rendering. A
  chart is the family, its metrics and its file name.
- `os.path.exists`, `os.makedirs` and `os.path.join` (lines 24-25, 50): file-system
  state. The output directory is not part of a chart's file name.
- Grouping.PlotOutcomeCases: its success case covers the row lookups of line 41
  only. Every table is assumed to have as many values per row as the
  representative table's `concurrency` row, and unique row labels. `plt.plot`
  raises `ValueError` when the lengths differ or when a repeated label yields a
  two-dimensional block, and the model does not capture that failure.
- Grouping.PlotMetrics: on a drawing failure the model returns only the error.
  The images saved for earlier families stay on disk, and that is not modelled.
- `create_pdf`'s page layout (lines 55-80, 99-107): FPDF rendering. This includes
  the `better[prefix]` lookup of line 77, which comes before the summary loop but
  depends on which image files exist on disk.
- `str.title()` and the `_`-to-space replacement in titles (lines 44-45, 66, 74,
  77, 105): they affect only rendered text.
- Floats: `astype(float)` (line 22) and pandas' NaN skipping in `.max()`/`.min()`
  (lines 88, 90). Cells are integers, and every row must have a cell
  (`AllRowsNonEmpty`), so no NaN arises.
- Duplicate row labels: pandas' `.loc` on a repeated label returns several rows.
  The model's lookups consider whether some row has the label, and the summary
  considers every matching row, so a repeated label is treated like distinct
  rows with the same values. For plotting, see the Grouping.PlotOutcomeCases
  line above.
- The module-level configuration and driver calls (lines 109-122): the prefixes
  and settings are parameters. The `Fixtures` module uses two of the four
  configured prefixes.

## Findings

| source | as written | input that shows it | evidently intended | confidence | as-written member | corrected member |
|---|---|---|---|---|---|---|
| scripts/graph-results.py:92-97 | `max(summary[prefix], key=...)` / `min(...)` is called for every configured family, even one whose summary is empty, which raises `ValueError` and aborts the report | the qpm benchmark with the time-to-first-token family also configured: no model has a row starting with it | a family nobody has rows for is left off the top-model table, as the chart loop skips it (lines 35-37) and as the documentation promises ("no crash") | medium, not executed | Scenarios.FamilyWithoutDataAbortsReport | Report.TopTableSkippingEmpty |
