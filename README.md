# Inventory alert pipeline, modelled in Dafny

`inventory_alert.py` pulls inventory records from a maintenance-management
API page by page, flattens each record's nested `inventories` list into
rows, classifies every row as "URGENT: Critically Low Stock!", "Warning:
Stock is Low" or "Stock OK" by comparing its quantity with its par and
critical levels, and e-mails the Sheffield site's urgent and warning rows
as a sorted table. This project models that pipeline without its HTTP,
file and SMTP plumbing and proves what each stage promises.

- `table.dfy` (`Table`): cells (`Num | Str | Missing | List`), rows as maps
  from column name to cell, a DataFrame as a column set and a row sequence,
  the exceptions the script can raise, boolean-mask selection.
- `text.dfy` (`Text`): the decimal reading of a text cell and Python's
  string order.
- `fetcher.dfy` (`Fetcher`): the pagination loop of `get_inventory_data`,
  proved against the function `Accumulate`, and the `unique_id` numbering.
- `flattener.dfy` (`Flattener`): `flatten_process_inventory_data`: the nested
  explode loop, the left join on `unique_id` (proved equal to joining each
  record with its own lines), the column whitelist, numeric coercion and
  gap filling.
- `alerts.dfy` (`Alerts`): `alert_logic` and `generate_inventory_alerts`.
- `report.dfy` (`Report`): the site filter, rename, reorder and sort of
  `send_email_notification`, and the "nothing to send" case.
- `pipeline.dfy` (`Pipeline`): the row filters of `main` and a whole run,
  whose contract ties the sent report to the fetched records and says what
  every line of it satisfies.
- `wrappers.dfy` (`Wrappers`): `Option`.

The API is a finite sequence of responses (`Failed`, or a body whose
`data` is absent or a list of records), so the loop's measure is the number
of responses left; when the sequence runs out the loop stops as on a page
without data.

Behaviours of the code that a reader might not expect:

- The merge is a left join (line 234), so a record without inventory lines
  still gives one row, whose line columns are later filled with 0.
- The pre-filter drops a row when either threshold is 0 (lines 265-266),
  not only when both are.
- The report sort is descending on the label text (line 73), so at equal
  quantity "Warning: Stock is Low" sorts before "URGENT: Critically Low
  Stock!" ('W' > 'U').
- Indexing a column that is not there raises `KeyError`. This happens for
  `inventories`, for `unique_id` when lines are merged, for `type`,
  `par_level` and `critical_level` in `main`, and for `store.title` and the
  ten report columns. The model returns these as errors.

## Model

| member | source | states |
|---|---|---|
| `Table.Where` | inventory_alert.py:62 | the selection keeps exactly the rows that pass the mask, and is no longer than the input |
| `Table.WhereCounts` | inventory_alert.py:62 | a passing row occurs in the selection as often as in the input, any other row not at all |
| `Table.WhereAppend` | inventory_alert.py:62 | selection keeps the order: selecting from two pieces is selecting from each, one after the other |
| `Table.WhereWhere` | inventory_alert.py:264-266 | two masks applied one after the other select what their conjunction selects |
| `Table.WhereEmpty` | inventory_alert.py:62 | the selection is empty iff no row passes the mask |
| `Text.ParseInt` | inventory_alert.py:253 | a text is read as a number only when it is an optional '-' followed by digits; an all-digit text is read as a non-negative number, and only a leading '-' gives a negative one; `Text.ParseShowInt` gives the round trip |
| `Text.ParseShowInt` | inventory_alert.py:253 | every integer written in decimal reads back as itself |
| `Fetcher.FetchPages` | inventory_alert.py:144-188 | the loop gathers exactly `Accumulate(responses)` and its page counter ends at one more than the number of full pages |
| `Fetcher.StopAt` | inventory_alert.py:162-188 | at a page that is not full the loop stops with every record gathered, and the pages before it were all full |
| `Fetcher.MoveOn` | inventory_alert.py:167-175 | after a full page the records gathered so far, followed by what the remaining pages give, are still everything the run gathers |
| `Fetcher.AccumulateShape` | inventory_alert.py:149-188 | the gathered records are the in-order concatenation of the first n pages, all full, followed by page n+1's records when it is short; page n+1 is not full |
| `Fetcher.StopWithoutAppending` | inventory_alert.py:162-188 | a failure, an absent `data` or an empty `data` after full pages stops the loop and keeps exactly the records of those full pages |
| `Fetcher.ShortPageIsLast` | inventory_alert.py:167-173 | a page shorter than `per_page` after full pages is appended and nothing after it is |
| `Fetcher.TwoPages` | inventory_alert.py:171-173 | pages of 25 and 10 records give those 35 records whatever responses follow |
| `Fetcher.WithIds` | inventory_alert.py:205-206 | record i gets `unique_id` i; its other cells are unchanged |
| `Fetcher.GetInventoryData` | inventory_alert.py:144-210 | no records gathered gives the no-data error; otherwise the frame of the gathered records numbered by position |
| `Fetcher.FetchedIds` | inventory_alert.py:205-206 | the ids of distinct records differ and record i's id is i |
| `Flattener.Explode` | inventory_alert.py:217-222 | there are as many exploded rows as inventory lines in all records together |
| `Flattener.ExplodeInventories` | inventory_alert.py:214-222 | the nested loop builds `Explode(parents)`; a non-list `inventories` cell counts as no lines |
| `Flattener.ExplodeAt` | inventory_alert.py:217-222 | line j of record i is the exploded row right after the lines of records 0..i-1 and carries `unique_id` i |
| `Flattener.MatchesOfExplode` | inventory_alert.py:221-234 | the exploded rows with `unique_id` i are exactly record i's lines, in order |
| `Flattener.MergeLeft` | inventory_alert.py:234 | every record gives at least one row of the join; `MergeIsOwnLines` states which rows they are |
| `Flattener.MergeIsOwnLines` | inventory_alert.py:225-234 | with records numbered by position, the left join on `unique_id` joins each record with its own lines and has the sum of max(k_i, 1) rows |
| `Flattener.JoinOwnLines` | inventory_alert.py:234 | the record-by-record left join has the sum of max(k_i, 1) rows |
| `Flattener.MergeWithoutLines` | inventory_alert.py:233-236 | with no lines the join would give the records without `inventories`, which is what the else-branch keeps |
| `Flattener.Project` | inventory_alert.py:247 | the kept columns are the whitelisted ones present, and their cells are unchanged |
| `Flattener.Coerce` | inventory_alert.py:253 | a coerced cell is a number, and a number stays as it is |
| `Flattener.CoerceReadsDecimal` | inventory_alert.py:253 | a text cell holding a decimal number becomes that number |
| `Flattener.CoerceNotANumber` | inventory_alert.py:253 | the text "N/A" becomes 0 |
| `Flattener.FillNa` | inventory_alert.py:256 | every row gets a cell in every column, and a missing cell becomes 0 |
| `Flattener.CoerceNumericColumns` | inventory_alert.py:251-253 | the loop over the numeric columns coerces each one the frame has, giving `CoerceNumeric` of the whole list |
| `Flattener.NormalizeCells` | inventory_alert.py:239-256 | columns are the whitelisted ones present; each row has every column and no missing cell; a threshold cell is its coerced value and any other cell its value with NaN as 0 |
| `Flattener.FlattenProcess` | inventory_alert.py:212-257 | the method returns `Flattened(df)`: `KeyError` without `inventories`, or without `unique_id` when there are lines, else the merged frame normalised when not empty |
| `Flattener.FlattenedRowCount` | inventory_alert.py:225-257 | with records numbered by position, the flattened frame has the sum of max(k_i, 1) rows |
| `Flattener.FlattenedThresholds` | inventory_alert.py:249-256 | every kept threshold column of the result holds numbers only |
| `Alerts.AlertLogic` | inventory_alert.py:37-41 | urgent iff quantity <= critical level; warning iff critical level < quantity < par level; OK otherwise |
| `Alerts.LabelsDistinct` | inventory_alert.py:37-41 | the three labels are distinct |
| `Alerts.TieIsUrgent` | inventory_alert.py:37-38 | quantity equal to both levels is urgent |
| `Alerts.TwoLinesOfOnePart` | inventory_alert.py:37-40 | (2, 10, 5) is urgent and (8, 10, 5) is a warning |
| `Alerts.Threshold` | inventory_alert.py:33-35 | a threshold cell can be compared iff it is a number or NaN; NaN reads as 0 and a number as itself |
| `Alerts.RowAlert` | inventory_alert.py:32-41 | a row can be classified iff none of its three threshold cells is text or a list; with three numbers the label is `AlertLogic` of them |
| `Alerts.MissingReadsAsZero` | inventory_alert.py:33-35 | a NaN threshold is classified exactly as a 0 in its place |
| `Alerts.FillThresholds` | inventory_alert.py:50 | the three threshold columns get a cell in every row, NaN becoming 0; other cells are unchanged |
| `Alerts.LabelRow` | inventory_alert.py:50-52 | a row can be labelled iff `alert_logic` does not raise on its filled thresholds; a labelled row is classified by its own thresholds and keeps every other cell, NaN thresholds becoming 0 |
| `Alerts.LabelRows` | inventory_alert.py:52 | every row labelled, one for one and in order, or nothing when some row cannot be |
| `Alerts.LabelRowsMembers` | inventory_alert.py:52 | the labelled rows are exactly the labelled forms of the input rows |
| `Alerts.GenerateInventoryAlerts` | inventory_alert.py:43-53 | `ValueError` naming the missing required columns; otherwise a type error iff some row cannot be labelled; otherwise the rows are `LabelRows` of the input: every row kept in order, labelled with `AlertLogic` of its own thresholds, other cells unchanged except NaN thresholds become 0 |
| `Report.ShapeRows` | inventory_alert.py:64-71 | each frame row becomes one report line in order, when its Quantity is a number and its Alert a text |
| `Report.CellsFollowHeaders` | inventory_alert.py:64-71 | report column k holds the frame cell renamed to header k, in the fixed 10-column order |
| `Report.SortReport` | inventory_alert.py:73 | the result is a permutation of its input ordered by quantity ascending, then label descending |
| `Report.PrecedesAntisymmetric` | inventory_alert.py:73 | two lines that each may come first have the same quantity and the same label, so the sort order is fixed up to such ties |
| `Report.WarningBeforeUrgent` | inventory_alert.py:73 | in a sorted report, at equal quantity, a warning line precedes an urgent one |
| `Report.MissingHeadersEmpty` | inventory_alert.py:71 | the reordering raises iff some of the ten source columns is absent |
| `Report.BuildReport` | inventory_alert.py:62-73 | `KeyError` without `store.title`; otherwise an error names missing report headers or is a type error; a built report is sorted and a permutation of the site rows renamed |
| `Report.EmptyReportIffNoSiteRow` | inventory_alert.py:62-79 | the report is empty iff no row belongs to the Sheffield site |
| `Report.ReportTracesToSiteRows` | inventory_alert.py:62-73 | every report line is the renamed form of a Sheffield row of the frame |
| `Report.SendEmailNotification` | inventory_alert.py:62-79 | `KeyError` without `store.title`; success iff all ten columns exist and the site's rows can be sorted; a failure is a `KeyError` when a column is missing and a `TypeError` otherwise; nothing sent iff no site row; a sent report is non-empty, sorted, a permutation of the site's rows and only those |
| `Pipeline.SelectRows` | inventory_alert.py:264-270 | a mask on an absent column raises `KeyError`; otherwise the result is `Where` of the rows: each passing row kept as many times as it occurs, in order, and no other row |
| `Pipeline.PreFilter` | inventory_alert.py:264-266 | succeeds iff `type`, `par_level` and `critical_level` exist, and otherwise raises `KeyError`; the three masks in a row select, in order and with every occurrence, exactly the rows not pending procurement whose par level and critical level are both not 0 |
| `Pipeline.AlertFilter` | inventory_alert.py:269-270 | raises without an `alert` column; otherwise keeps every occurrence of each urgent and warning row, in order, and no other row |
| `Pipeline.ThreeMasks` | inventory_alert.py:264-266 | the three masks applied one after the other select exactly what the single combined mask selects |
| `Pipeline.SiteAlertsMembers` | inventory_alert.py:264-270 | a row is a site alert row iff it is the labelled form of a row of the flattened frame that passes the pre-filter, and it is an urgent or warning row of the Sheffield site |
| `Pipeline.ReportsSiteAlerts` | inventory_alert.py:269-281 | the rows handed to the report, restricted to the site, are the `SiteAlerts`; nothing is sent iff there are none; a sent report has one line per such row |
| `Pipeline.ReportSourcesPresent` | inventory_alert.py:62-71 | the ten columns the report is built from are all present iff the nine `RunColumns` and `alert` are |
| `Pipeline.KeptRowsLabel` | inventory_alert.py:32-41 | on the flattened frame, once the three threshold columns exist, `alert_logic` gives every row the filters keep a label: the classifier cannot raise a `TypeError` in a run |
| `Pipeline.FilteredRowsShape` | inventory_alert.py:269-273 | every urgent or warning row has a numeric quantity and a text alert, so the report's sort cannot raise a `TypeError` in a run |
| `Pipeline.RunOutcome` | inventory_alert.py:259-281 | from the stages' results: the report matches `SiteAlerts` of the flattened frame, as `RunInventoryAlerts` states |
| `Pipeline.RunSendsReportable` | inventory_alert.py:259-281 | from the stages' results: a sent report is non-empty, sorted and made of `Reportable` lines |
| `Pipeline.RunInventoryAlerts` | inventory_alert.py:259-285 | no records gives the no-data error, and only then; any other failure is a `KeyError` or a `ValueError`, never a `TypeError`; a run succeeds whenever records were fetched, they flatten, and the flattened frame has the nine columns of `RunColumns`; when the run does not raise, the flattened frame of the fetched records exists, nothing is sent iff it has no `SiteAlerts`, and a sent report holds exactly one line per site alert row (as multisets); a sent report is non-empty, sorted, and each line is a Sheffield urgent or warning line, not pending procurement, with non-zero numeric thresholds and the label `AlertLogic` gives its own numbers |
| `Pipeline.SentReportIsReportable` | inventory_alert.py:264-281 | every line of the report traces back through the filters and the classifier to a flattened row, so it meets all of the above |

## Left out

- HTTP: the request, `raise_for_status` and JSON decoding are a sequence of responses. The real loop has no termination guarantee if the API keeps returning full pages.
- An `inventories` list whose entries are not JSON objects: the model's lists hold objects only.
- A `data` field that holds something other than a list: the model's body has either no `data` or a list.
- Loading `config.yaml` and building the URL and headers: these are external configuration.
- Writing the JSON snapshot and the CSV, the HTML body, MIME construction and the SMTP send are left out. A sent report is the value `Some(report)`.
- Logging, `print` (including the list of sites with alerts) and the exit: the exits are the `NoData` error.
- pandas internals: `json_normalize` flattening (nested store keys arrive as `"store.title"`), `_x`/`_y` suffixes on clashing merge columns (parent and line columns are assumed disjoint apart from `unique_id`), the column order of `Index.intersection` (columns are a set), and sort stability (only sortedness and permutation are stated).
- Numbers are integers: floating point, NaN arithmetic and float quantities are not modelled; `Missing` stands for NaN and None.
- Text.ParseInt, Flattener.Coerce: reads only an optional '-' followed by decimal digits; other spellings that `pd.to_numeric` accepts (decimals, exponents, surrounding spaces, '+') become 0 in the model, and a list cell becomes 0 rather than raising.
- Alerts.Threshold, Alerts.RowAlert, Alerts.LabelRow, Alerts.LabelRows, Alerts.GenerateInventoryAlerts: a text (or list) threshold cell is a type error. Python would compare two text cells with each other instead of raising. It also never compares `par_level` when quantity <= critical level, so it returns "URGENT..." even when `par_level` is text. After flattening, the thresholds are numbers, so a run never meets these cases (`Pipeline.KeptRowsLabel`).
- Report.ToReportRow, Report.ShapeRows, Report.BuildReport, Report.SendEmailNotification: a non-numeric Quantity or non-text Alert cell in the site's rows is a type error; `ToReportRow` and `ShapeRows` give None for such a row, though the rename and reorder of lines 64-71 keep any row, and pandas would still sort a column that is entirely text, or one with NaN (placing NaN last). In a run the rows reaching the report always have a numeric quantity and a text alert (`Pipeline.FilteredRowsShape`).
