# PPE inspection dashboard — verified model of the data pipeline

The dashboard shows which technicians have a current inspection of their
personal protective equipment (PPE). It reads three tables:

- the kit-assignment table `kit_epi`,
- the inspection log `inspecao`,
- the organisational directory `microsiga`, which gives each technician's manager and coordinator.

From these it builds a derived table `df` in three steps:

1. It keeps the latest inspection date of each technician (`ultima_inspecao`).
2. It left-merges that date, and then the manager and coordinator, onto every kit row.
3. It labels each row `OK`, `Pendente (inspeção vencida)` or `Pendente (sem inspeção)`. The label compares the latest date with `limite = hoje - 180 days`.

It then narrows `df` into `df_filtrado` by two selectors, manager and coordinator (app.py:62-66). `Todos` is the wildcard.

The rows of `df_filtrado` are grouped by (manager, coordinator, status) and counted in
`resumo`. When `resumo` is empty, a warning replaces the chart.

The model follows the pandas code:

- Tables are sequences of records. A pandas null is `None`.
- Dates are day numbers, counted from 1970-01-01.
- `hoje` is a parameter.
- `groupby` sorts its groups, so `ultima_inspecao` and `resumo` come out in key order. Strings are compared as Python compares them (`StringOrder.Less`).
- `groupby` drops rows whose key holds a null.

Modules, in pipeline order:

- `Tables`: the records and the status labels.
- `StringOrder`: Python's string order.
- `Join`: lookup and `merge(how='left')`.
- `LatestInspection`: `ultima_inspecao`.
- `Merge`: the two merges.
- `Classification`: `limite` and `status_inspecao`.
- `Filters`: the option lists, and the narrowing into `df_filtrado`.
- `Summary`: `resumo`.
- `Dashboard`: the whole run, and the sample tables of the script as a worked scenario.

Null keys and the summary:

- Rows with a null manager or coordinator form no group, because `groupby` drops them, and so does the model.
- The `QTD` values therefore add up to the filtered rows that have both a manager and a coordinator (`Summary.TallyTotal`), not to all filtered rows.
- The warning is shown exactly when no filtered row has both a manager and a coordinator (`Dashboard.Run`). The table may still hold rows with a null manager or coordinator at that point.

## Model

| member | source | states |
|---|---|---|
| Tables.LabelInjective | app.py:45-53 | two statuses with the same `STATUS` text are the same status, so grouping by the text is grouping by the status |
| StringOrder.LessTotal | app.py:56-57 | Python's string order, used by `sorted` and `groupby`, orders any two different strings |
| StringOrder.LessTransitive | app.py:56-57 | Python's string order is transitive |
| LatestInspection.Upsert | app.py:30-34 | adding one event keeps the table strictly ascending by id (one row per id) |
| LatestInspection.UpsertFind | app.py:30-34 | after one event, its technician holds the larger of its old date and the event's date, and every other id is unchanged |
| LatestInspection.LatestPerTech | app.py:30-34 | `ultima_inspecao` is strictly ascending by id, so no technician appears twice |
| LatestInspection.LatestPerTechFind | app.py:30-34 | a technician has no row exactly when it has no event; otherwise its date is one of its event dates and no event of it is later |
| LatestInspection.LatestRowsAreMaxima | app.py:30-34 | every row of `ultima_inspecao` holds the maximum event date of its technician |
| Join.Matches | app.py:38-39 | the rows a key matches all come from the right table and carry that key |
| Join.Lookup | app.py:38-39 | the row a key finds is in the table and carries the key; when none is found, no row carries the key |
| Join.MatchesUnique | app.py:38-39 | with unique right keys, a key matches at most one row: the one `Lookup` finds |
| Join.LeftJoin | app.py:36-40 | a left merge never has fewer rows than its left table |
| Join.LeftJoinUnique | app.py:36-40 | against unique right keys, a left merge keeps each left row exactly once, in order, combined with its match or with nulls |
| Merge.MergeTables | app.py:36-40 | the two chained left merges never drop a kit row |
| Merge.MergeTablesRows | app.py:36-40 | with unique directory ids, `df` has one row per kit row, in kit order, with the kit columns, the technician's latest date (null if none) and its directory manager and coordinator (null if absent) |
| Classification.Limite | app.py:42-43 | `limite` lies before `hoje` |
| Classification.Classify | app.py:45-51 | exactly one status: `Pendente (sem inspeção)` exactly when there is no date, `Pendente (inspeção vencida)` exactly when the date is before `limite`, `OK` exactly when the date is `limite` or later |
| Classification.ThresholdBoundary | app.py:42-51 | an inspection exactly 180 days old is `OK`, and one 181 days old is expired |
| Classification.LaterInspectionStaysOk | app.py:48-51 | a later inspection date never turns an `OK` row into a pending one |
| Classification.LaterTodayNeverBetter | app.py:42-51 | as `hoje` advances, a row can leave `OK` but never enter it |
| Classification.WithStatus | app.py:53 | adding `STATUS` keeps every row, in order, with its columns unchanged, and gives each row the status of its own date |
| Filters.InsertName | app.py:56-57 | adding a name to a strictly ascending list keeps it strictly ascending, with exactly the old names plus the new one |
| Filters.SortedNames | app.py:56-57 | the sorted distinct names are strictly ascending, and hold exactly the non-null values of the column |
| Filters.Options | app.py:56-57 | each option list is `Todos`, then, strictly ascending, exactly the names that occur non-null in the column |
| Filters.AscendingUnique | app.py:56-57 | two strictly ascending lists with the same names are equal, so the option list is the only sorted, repeat-free list of the names |
| Filters.Matching | app.py:64 | `df[df[col] == name]` keeps exactly the rows whose column equals the name; a null never does |
| Filters.ManagerThenCoordinator | app.py:62-66 | narrowing by manager and then by coordinator keeps the rows that both selections let through |
| Filters.CoordinatorThenManager | app.py:62-66 | narrowing in the other order gives the same rows |
| Filters.FiltersCommute | app.py:62-66 | the manager and coordinator filters commute |
| Filters.FilterRows | app.py:62-66 | copying `df` and narrowing by each non-wildcard selection gives the rows that both selections let through |
| Filters.SelectedCounts | app.py:62-66 | a row the selections let through is kept as many times as it occurs in `df`; any other row is dropped, including a row with a null in a filtered column |
| Filters.SelectedSubsequence | app.py:62-66 | `df_filtrado` keeps the order of `df`: it is a subsequence of `df` |
| Filters.WildcardKeepsAll | app.py:62-66 | `Todos` in both selectors leaves `df` unchanged |
| Filters.SelectedIdempotent | app.py:62-66 | filtering again with the same selections changes nothing |
| Filters.OptionKeepsARow | app.py:56-66 | choosing a concrete name from an option list keeps at least one row |
| Summary.KeyLessTransitive | app.py:68-72 | the group order (manager, then coordinator, then status text) is transitive |
| Summary.KeyLessTotal | app.py:68-72 | the group order orders any two different keys |
| Summary.Bump | app.py:68-72 | counting one more row keeps the keys strictly ascending and every count at least one, and raises the sum of counts by one |
| Summary.BumpQtd | app.py:68-72 | counting a row raises its own key's count by one and leaves every other count alone |
| Summary.Tally | app.py:68-72 | `resumo` is strictly ascending by key, so no (manager, coordinator, status) triple appears twice, and every `QTD` is at least 1 |
| Summary.TallyQtd | app.py:68-72 | the count kept for a triple is the number of rows with that triple |
| Summary.TallyTotal | app.py:68-72 | the `QTD` values add up to the number of rows whose manager and coordinator are both non-null |
| Summary.TallyRows | app.py:68-72 | each emitted `QTD` equals the number of rows with its triple, and a triple is emitted exactly when some row has it |
| Summary.TallyEmpty | app.py:68-76 | `resumo` is empty exactly when no row has both a manager and a coordinator |
| Dashboard.Derive | app.py:30-53 | the derived table never has fewer rows than the kit table |
| Dashboard.DeriveRows | app.py:30-53 | with unique directory ids, each kit row gives one row, in order: date null exactly without events and otherwise the maximum event date, the directory manager and coordinator, and the status of that date against `hoje - 180` |
| Dashboard.Run | app.py:30-92 | one run: the option lists of `df`, the detail table only when its checkbox is ticked, `resumo` counting exactly the selected rows by triple, and the warning exactly when no selected row has both a manager and a coordinator |
| Dashboard.SampleStatuses | app.py:11-53 | on the sample tables with `hoje` = 2024-06-01, 101 is `OK`, 102 and 104 are expired, and 103 and 105 have no inspection |
| Dashboard.SampleFilters | app.py:11-66 | on the sample tables, `Gerente A` keeps 101, 102 and 105 in order, and `Gerente B` with `Coord 2` keeps nothing, so the warning is shown |

## Left out

- Streamlit calls are left out, because they are user interface: page setup, title, the two select boxes, the warning text, the checkbox and the data-frame widget (app.py:6-8, 59-60, 76, 91-92). The two selections and the checkbox are plain inputs of `Dashboard.Run`. The warning and the detail table are fields of its result.
- The plotly bar chart (app.py:78-88) is left out. It is drawn by a library outside this model. `resumo` is the data it would be given.
- `datetime.today()` (app.py:42) reads the clock, so `hoje` is a day-number parameter. Times of day are not modelled. `hoje` is truncated to midnight, so `limite` is midnight too. A timestamp is then below `limite` exactly when its day is, and taking the maximum commutes with taking the day, so day numbers give the same statuses even for timestamps with a time of day.
- The inline sample data (app.py:11-27) is not a pipeline input. It appears only as constants for the scenario lemmas.
- The leftover `IDTEL`, `IDTEL_x` and `IDTEL_y` columns of the merges are left out. They repeat the technician id, or are null where the merge found no row.
- Null dates in the inspection log are not modelled. pandas' `max` would skip them.
- Missing columns are not modelled. Six of the seven input columns raise KeyError inside app.py:31-39: a missing `IDTEL` or `DATA_INSPECAO` of the inspection log at line 31, a missing `IDTEL_TECNICO` at the merge of line 38, and a missing `IDTEL`, `GERENTE_IMEDIATO` or `COORDENADOR_IMEDIATO` of the directory at the column selection of line 39. A missing `PRODUTO_PRINC_INSPECAO` fails only at the column selection of app.py:92, and only when the detail table is shown.
- Malformed dates are not modelled. They fail at load time, in `pd.to_datetime`.
- Join.LeftJoinUnique: the row-by-row content of a merge is proved only when the right table has unique keys. Against repeated directory ids, `Join.LeftJoin` still models pandas' duplication of the kit row, but only the lower bound on its size is proved.
- Merge.MergeTablesRows: it assumes one directory row per technician id. The latest-inspection table has unique ids by construction.
- Dashboard.DeriveRows: it assumes one directory row per technician id, as `Merge.MergeTablesRows` does.
- Filters.OptionKeepsARow: in the source a selection always comes from its option list. The model accepts any string. A manager or coordinator literally named `Todos` acts as the wildcard, as it does in the source.
