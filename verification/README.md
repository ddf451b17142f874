# Village waste dashboard — a verified model

`dashboard_sampah.py` is a Streamlit page over a survey sheet with one row per
village (*desa*), grouped by district (*kecamatan*) and regency (*kabupaten*).
Each row records the village's waste-processing system, whether it runs a
waste business, whether that business brings village revenue (PADes), and
whether it is run by the village enterprise (BUMDes). The page:

1. offers four selectors. Each lists "Semua" (all), then the sorted distinct
   non-blank values of its column. The district list follows the chosen
   regency, and the village list follows the chosen district;
2. on submit, narrows a copy of the sheet by every selector that is not
   "Semua";
3. builds three regency-by-category count tables, each with a "Total" row:
   - processing system: an added "Belum Terdata" column, a column rename,
     and a cut to five canonical columns;
   - business status over the TPS3R villages only;
   - revenue and BUMDes: two tables merged on the regency;
4. shows summary tiles read from the "Total" row, and offers every table for
   download without that row.

This project models that pipeline in Dafny and proves what it computes.

- `wrappers.dfy` (`Wrappers`): `Option`.
- `seqs.dfy` (`Seqs`): Python's string order (code-point lexicographic), a
  sort with duplicates removed, and order-preserving subsequences.
- `survey.dfy` (`Survey`): the records (a blank cell is `None`), the selector
  option lists, and the filter chain.
- `tables.dfy` (`Tables`): tables as values (columns plus labelled rows), the
  pandas operations the page uses, and `Frame`, the data frame that the page
  updates in place.
- `counttables.dfy` (`CountTables`): the
  `groupby("KABUPATEN")[c].value_counts().unstack(fill_value=0)` table and its
  counting facts.
- `dashboard.dfy` (`Dashboard`): the three summaries, the tiles, the
  downloads, and the whole submit step (`Render`).

The model follows what the pandas calls actually do:

- Regencies come out in sorted order, because `groupby` sorts its keys.
  Categories also come out sorted, because `unstack` sorts them.
- The system table always gets its "Total" row, even for an empty selection.
  The business and revenue tables only get one when they are not empty.
- `.loc["Total"] = ...` overwrites a row that is already labelled "Total"
  (a regency with that name) instead of appending one. The model does the
  same. The sums are taken over every row first, so the tiles count the
  records correctly on every sheet. The row layout and the downloads are
  stated for the case where no regency is called "Total".
- The "Total" cells do not add up to every record of the selection. A row
  with a blank regency or a blank value is counted nowhere, and the system
  table also drops every system outside its five kept columns. The proved
  grand totals say exactly which records the cells add up to.
- The renaming at lines 62-67 cannot change the result. Its only entry that
  changes a label, "Belum Ada" → "Belum Ada Sistem", neither reads nor
  produces a canonical column. The other three entries map a label to itself.

## Model

| member | source | states |
|---|---|---|
| Seqs.LessIrreflexive | dashboard_sampah.py:22 | `Less`, Python's `<` on `str` (the order `sorted` uses), never holds between a string and itself |
| Seqs.LessTransitive | dashboard_sampah.py:22 | `Less` is transitive |
| Seqs.LessTotal | dashboard_sampah.py:22 | any two different strings are ordered by `Less` one way or the other, so `sorted` has one answer |
| Seqs.SortDistinct | dashboard_sampah.py:22 | `sorted(x.unique())` is strictly ascending in code-point order and holds exactly the members of `x` |
| Seqs.SortedDetermined | dashboard_sampah.py:22 | two strictly ascending lists with the same members are equal, so the sorted list is unique |
| Seqs.Intersect | dashboard_sampah.py:72 | `[c for c in wanted if c in have]` holds exactly the wanted labels present, never more than wanted |
| Seqs.IntersectIsSubsequence | dashboard_sampah.py:72 | that comprehension keeps the order of `wanted` |
| Survey.Present | dashboard_sampah.py:22 | `dropna()` yields exactly the values some record holds in the column |
| Survey.Where | dashboard_sampah.py:45 | `df[df[c] == v]` holds exactly the rows whose cell equals `v`, and is no longer than `df` |
| Survey.Options | dashboard_sampah.py:22 | an option list is "Semua", then a strictly ascending list of exactly the column's non-blank values |
| Survey.OptionsUnique | dashboard_sampah.py:22-37 | any list with those three properties is the option list |
| Survey.KabupatenOptions | dashboard_sampah.py:22 | regency entries: "Semua", then every regency in the sheet, sorted and without repeats |
| Survey.KecamatanOptions | dashboard_sampah.py:25-28 | with a regency chosen, each district entry is the district of some record of that regency, and every such district is listed; with "Semua", every district in the sheet |
| Survey.DesaOptions | dashboard_sampah.py:31-34 | with a district chosen, each village entry is the village of some record of that district, and every such village is listed; the chosen regency plays no part |
| Survey.SistemOptions | dashboard_sampah.py:37 | system entries: "Semua", then every system in the sheet, sorted and without repeats |
| Survey.CascadedOptions | dashboard_sampah.py:25-34 | a child selector lists the child values of the rows matching the parent choice, or of all rows when the parent is "Semua" |
| Survey.Keep | dashboard_sampah.py:43-51 | the filtered table holds exactly the rows that pass every selector that is not "Semua" |
| Survey.Narrowed | dashboard_sampah.py:44-51 | one `if` of the chain: "Semua" keeps every row; any other choice keeps exactly the rows whose cell equals it; never more rows |
| Survey.Narrow | dashboard_sampah.py:44-51 | the in-place reassignment `df = df[df[c] == v]` of one `if` yields `Narrowed` of the current table |
| Survey.WhereCounts | dashboard_sampah.py:45 | `df[df[c] == v]` keeps each matching row as many times as it occurs and drops every other row |
| Survey.KeepCounts | dashboard_sampah.py:43-51 | the filtered table keeps each matching row as many times as it occurs in the sheet and no other row |
| Survey.FilterStep | dashboard_sampah.py:44-51 | each `if` of the chain either leaves the table alone ("Semua") or narrows it by one equality, giving the rows that pass one more filter |
| Survey.NextFilter | dashboard_sampah.py:44-51 | one step of the chain applied to the rows passing the first k filters gives the rows passing k + 1 |
| Survey.ApplyFilters | dashboard_sampah.py:43-51 | the chain of four in-place narrowings yields the rows that match the selection, in their original order; with all four selectors "Semua" it is the raw sheet; the raw sheet is a value and is not changed |
| Survey.ChainEnd | dashboard_sampah.py:43-51 | passing all four filters is matching the selection; the result is an order-preserving subsequence |
| Survey.KeepMeaning | dashboard_sampah.py:43-51 | the filtered rows are a subsequence of the sheet; a row is in it iff it is in the sheet and matches; all "Semua" keeps everything |
| Survey.KeepNarrowing | dashboard_sampah.py:43-51 | fixing more selectors filters the already-filtered table, and the result is a subsequence of it and no longer |
| Tables.IndexOf | dashboard_sampah.py:90 | a label lookup finds the first position holding the label |
| Tables.WithTotal | dashboard_sampah.py:75 | `.loc["Total"] = .sum()`: without a "Total" row, the result is the table followed by one last row labelled "Total" whose cells are the column sums (`Totals`, `df.sum()`, one per column); an existing "Total" row is overwritten in place by the sums, all other rows unchanged |
| Tables.DropTotal | dashboard_sampah.py:114 | `drop(index="Total", errors="ignore")` keeps the columns and exactly the rows not labelled "Total", in order |
| Tables.DropRowsCounts | dashboard_sampah.py:114 | dropping "Total" keeps every other row as many times as it occurs |
| Tables.ExportDropsTotal | dashboard_sampah.py:171 | the download of a table that got its "Total" row is the table as it was before |
| Tables.WithColumn | dashboard_sampah.py:61 | `df[name] = values` overwrites the column in place or appends it on the right; the new column holds the values, every other cell is unchanged, labels stay distinct |
| Tables.Selected | dashboard_sampah.py:73 | `df[cols]` keeps the wanted columns that exist, in the wanted order, each with its own cells |
| Tables.Renamed | dashboard_sampah.py:62-67 | `rename(columns=...)` maps every column label and leaves the cells alone |
| Tables.Lookup | dashboard_sampah.py:243 | an index lookup succeeds exactly when the label is present, and returns a row with that label |
| Tables.JoinRows | dashboard_sampah.py:243 | the inner join keeps exactly the labels present on both sides |
| Tables.JoinRowsTrace | dashboard_sampah.py:243 | every joined row is a left row's label and cells followed by the cells of the right row with that label, and the joined labels keep the left order |
| Tables.Merge | dashboard_sampah.py:243 | `merge(left_index, right_index, suffixes)` keeps exactly the labels found in both tables, in the left order; each row holds the left cells then the right cells of its label; its columns are the left ones then the right ones, a label found on both sides suffixed " PAD" or " BUMDes" (`Suffixed`) |
| Tables.MergeShape | dashboard_sampah.py:243 | every merged row has one cell per merged column |
| Tables.MergeWithTotals | dashboard_sampah.py:249 | merging two tables that each got a "Total" row gives their merge plus one "Total" row of left sums then right sums; its download is the merge of the tables without totals |
| Tables.Frame.SetColumn | dashboard_sampah.py:61 | assigning a column updates the frame in place to `WithColumn` of its old contents |
| Tables.Frame.RenameColumns | dashboard_sampah.py:62-67 | the frame becomes `Renamed` of its old contents |
| Tables.Frame.SelectColumns | dashboard_sampah.py:72-73 | the frame becomes `Selected` of its old contents |
| Tables.Frame.AddTotalRow | dashboard_sampah.py:75 | the frame becomes `WithTotal` of its old contents |
| CountTables.Counted | dashboard_sampah.py:60 | the records that `groupby` and `value_counts` see: regency and value both filled in |
| CountTables.CountTable | dashboard_sampah.py:60 | one row per regency with a counted record, one column per value, both sorted; each cell is the number of records of that regency with that value |
| CountTables.CountTableEmpty | dashboard_sampah.py:127-129 | a count table is empty exactly when no record has both a regency and a value |
| CountTables.ColumnSumOfCounts | dashboard_sampah.py:75 | summing a column of per-regency counts over distinct regencies counts the records of all those regencies |
| CountTables.CountInCovers | dashboard_sampah.py:75 | counting over a list that holds every counted regency misses no record |
| CountTables.CountTableTotals | dashboard_sampah.py:75 | each column sum of a count table is the number of records with a regency and that value |
| CountTables.SumOfLabels | dashboard_sampah.py:75 | adding up the per-value counts of distinct values counts every record with a regency and one of those values exactly once |
| CountTables.CountTableGrandTotal | dashboard_sampah.py:126-130 | the column sums of a count table add up to the number of records it counts, those with both a regency and a value; records missing either are in no cell |
| CountTables.CountTableWithTotal | dashboard_sampah.py:130 | after `.loc["Total"] = .sum()` the labels are the regencies followed by "Total", whose cells count every record with that value |
| CountTables.TotalCellCounts | dashboard_sampah.py:143-144 | a tile read from the "Total" row (`TotalCell`, `df.loc["Total", col]`) shows how many records have the tile's value, on every sheet: a regency called "Total" is overwritten by sums taken over all rows, itself included |
| Dashboard.WithNotRecordedCells | dashboard_sampah.py:60-61 | after line 61 (`WithNotRecorded`, whose new column is `NotRecordedCounts`) every cell counts its regency's records with the column's value; the "Belum Terdata" column counts the value "Belum terdata" |
| Dashboard.WithNotRecordedColumns | dashboard_sampah.py:60-61 | after line 61 the columns are the systems some record with a regency names, plus "Belum Terdata" |
| Dashboard.RenameKeeps | dashboard_sampah.py:62-67 | the renaming moves no label other than "Belum Ada" and gives no other label the name "Belum Ada Sistem" |
| Dashboard.SelectedCells | dashboard_sampah.py:62-73 | after the rename and the cut, the kept columns are the canonical ones present and every cell still counts its column's value |
| Dashboard.SystemTotals | dashboard_sampah.py:75 | each column sum of the system table counts every record with a regency and that system |
| Dashboard.SystemGrandTotal | dashboard_sampah.py:60-75 | the "Total" row of the system table adds up to the number of records with a regency whose system one of its columns shows, "Belum Terdata" standing for the value "Belum terdata"; blank regencies, blank systems and systems outside the five kept columns are counted nowhere |
| Dashboard.SystemGrandTotalAll | dashboard_sampah.py:60-75 | when every record has a regency and one of the five shown systems, the "Total" row adds up to the number of records |
| Dashboard.ShownSystem | dashboard_sampah.py:60-73 | a record with a regency and one of the five shown systems lands in a kept column |
| Dashboard.SystemColumnsMembers | dashboard_sampah.py:68-73 | the kept columns (`SystemColumns`, the table after line 73) are in canonical order and are exactly the canonical labels that some record with a regency names, plus "Belum Terdata" |
| Dashboard.SystemTableColumns | dashboard_sampah.py:68-75 | the columns of the system table (`SystemTable`, the table after line 75) are canonical labels in canonical order; "Belum Terdata" is always present; "Belum terdata" and "Belum Ada" never are; a "Total" row is always present |
| Dashboard.SystemTableRows | dashboard_sampah.py:60-75 | the rows are the regencies then "Total", even for an empty selection; each regency cell counts that regency's records with the column's system; the "Total" cells are the column sums and count all such records; a regency called "Total" is overwritten instead |
| Dashboard.SystemRowsAppended | dashboard_sampah.py:75 | adding the "Total" row to the cut table gives the rows just described |
| Dashboard.SystemSummary | dashboard_sampah.py:59-75 | the in-place steps (count, assign, rename, cut, add the Total row) produce the system table |
| Dashboard.SystemTileCounts | dashboard_sampah.py:77-90 | a system tile shows how many records with a regency have that system, whether or not a regency is called "Total" |
| Dashboard.SystemTileAppended | dashboard_sampah.py:75-90 | the same, when the "Total" row is appended after the regencies |
| Dashboard.SystemTileOverwritten | dashboard_sampah.py:75-90 | the same, when a regency called "Total" is overwritten by the sums over all rows |
| Dashboard.Tiles | dashboard_sampah.py:88-90 | one slot per tile in order; a slot is filled exactly when its column is in the table, with its caption and the column's "Total" cell (`TotalCell`) |
| Dashboard.Tps3rRows | dashboard_sampah.py:126 | the TPS3R rows are exactly the rows whose system is "TPS3R"; there are none exactly when no row has that system |
| Dashboard.Tps3rCounted | dashboard_sampah.py:126-128 | no TPS3R row is counted exactly when each lacks a regency or a business status |
| Dashboard.BusinessEmpty | dashboard_sampah.py:127-129 | the business count table is empty exactly when no TPS3R row has both a regency and a business status |
| Dashboard.BusinessSummary | dashboard_sampah.py:124-130 | no TPS3R row gives the first message; TPS3R rows with nothing to count give the second; otherwise the table is the TPS3R rows counted by business status with a "Total" row |
| Dashboard.PadBumdesEmpty | dashboard_sampah.py:194 | one of the two count tables is empty exactly when no record has a regency and an answer in that column |
| Dashboard.AddTotal | dashboard_sampah.py:195-196 | adding the "Total" row to a fresh frame gives `WithTotal` |
| Dashboard.PadBumdesSummary | dashboard_sampah.py:188-196 | a missing column gives the first message; an empty count table gives the second; otherwise both tables get their "Total" rows and are merged with the " PAD"/" BUMDes" suffixes |
| Dashboard.PadBumdesTiles | dashboard_sampah.py:207-219 | four slots, PAD Ya, PAD Tidak, BUMDes Ya, BUMDes Tidak; each is filled exactly when its answer is a column of its table, with that column's "Total" cell |
| Dashboard.SystemSection | dashboard_sampah.py:59-114 | the system table, its five tiles and its download; each present tile has its caption and counts the records of its system; without a "Total" regency, the download is the table before the "Total" row |
| Dashboard.BusinessSection | dashboard_sampah.py:124-171 | the message or the business table, tiles and download; each present tile has its caption and counts the TPS3R records with its status; without a "Total" regency, the download is the count table before the "Total" row |
| Dashboard.PadBumdesTileCounts | dashboard_sampah.py:207-217 | each revenue or BUMDes tile read from its table's "Total" row counts the records giving its answer |
| Dashboard.PadBumdesSection | dashboard_sampah.py:183-249 | the message or the merged table, tiles and download; each present tile has its caption and counts the records with its answer; without a "Total" regency, the merged table is the merge of the plain tables plus one "Total" row and the download is that merge |
| Dashboard.Render | dashboard_sampah.py:42-51 | one submission: the filtered rows match the selection, and each section shows its table and offers it for download without the "Total" row |

## Left out

- Loading the sheet (lines 10-13) is left out: Excel reading, header
  stripping and caching. The model starts from the records. Only the seven
  columns the selectors, the filters and the summaries read are kept.
- The UI is left out: forms, select boxes, tabs, messages, tile HTML and
  download buttons. Each message is a constructor of `BusinessView` or
  `PadBumdesView`. Resetting a stale child selection is the framework's job,
  not this code's.
- The Excel bytes written by xlsxwriter are left out. Only which table is
  written is modelled (the `download` field of `Section`).
- The plotly histograms (lines 265-290) and the raw-data tab are left out.
- Whether the sheet has the revenue and BUMDes columns (line 190) is a pair
  of booleans. Records always have those two fields.
- A sheet without the business column raises a `KeyError` at line 128; the
  model does not cover that.
- Render: does not state the tile values or the section contents itself.
  Those are stated by `SystemSection`, `BusinessSection` and
  `PadBumdesSection`, which it calls.
- SystemSummary: when no record has both a regency and a system, pandas
  takes the row index from the grouped series assigned at line 61. The
  regencies whose rows have only blank systems would then appear with zero
  counts. The model keeps no regency rows in that case. This is an index
  alignment corner of pandas.
- Merge: a regency label occurring twice on the right joins only with its
  first occurrence. Count tables never repeat a regency.
- Merge: pandas raises an error when suffixing creates a duplicate column
  label. The model does not represent that error.
- Column dtypes (integers turning into floats on an empty table) and the
  `int(...)` casts of the tiles are not modelled. Counts are natural numbers
  throughout.
- The model has no memory, clock, randomness or network. Nothing the page
  does depends on them.
