# Rental ledger engine of the phone-rental dashboard

The dashboard is a single Streamlit script, `app.py`. It keeps every
rental order as one row of a CSV ledger. Its engine, modelled here, does
six things:

- it appends the order the sidebar form submits;
- it cleans up each frame it loads: it supplies the 手機編號 (device id)
  and 國家 (country) columns that older files lack, and parses the two
  date columns;
- it computes the four dashboard figures: 總營收 (revenue), 出租中 (on
  rent), 庫存剩餘 (inventory estimate) and 總訂單數 (order count);
- it lists the months for the month picker and filters the editor's rows
  by the chosen month;
- it writes the editor's changes back, either verbatim in show-all mode
  or through `df.update` in month mode;
- it deletes one order by its row label.

## How the model represents the script

A frame is a `Table`: a header, which is a set of column names, and a
sequence of rows. Each row maps column names to cells. A cell is
`Missing`, text, an integer or a date. NaN and NaT are both `Missing`.
A row's position is its pandas label.

The date parser is a parameter of type `Cell -> Option<Date>`.

The modules follow the script's structure:

- `Schema` holds the data model and the script's constants: column
  names, statuses and the six-phone catalogue.
- `Migration` is the clean-up of lines 146-158, as functions over tables.
- `Frames.Frame` is the frame `df` that the script changes in place. Its
  `Migrate` method performs the column assignments one after another.
  Its `Update` method is `df.update`.
- `Kpi` holds the masks and aggregates of lines 161-170.
- `MonthView` holds the picker and the displayed rows. Each displayed
  row keeps its label.
- `Merge` holds what the save button writes.
- `Store` holds the order row, `pd.concat`, `df.drop` and the ledger
  file. The file is the class `Store.LedgerStore`: a flag for whether
  the file exists, and the table it holds. Its methods load, append,
  save and delete.

## Model

| member | source | states |
|---|---|---|
| Migration.Migrated | app.py:146-158 | The clean-up fails exactly when 開始日期 or 結束日期 is absent (the KeyError). A well-formed frame stays well-formed. |
| Migration.ParseCell | app.py:157-158 | A parsed date cell is a date or missing. A cell that is already a date, or already missing, is kept as it is. |
| Migration.MigratedShape | app.py:146-158 | Migration adds exactly 手機編號 and 國家 to the header and keeps the row count. Its result has both date columns settled. |
| Migration.MigrationFillsDeviceId | app.py:146-150 | An existing 手機編號 is kept. Otherwise 手機型號 is copied, or 未知型號 is filled in when that column is absent too. |
| Migration.MigrationFillsCountry | app.py:153-154 | An existing 國家 is kept. A frame without the column gets 台灣 in every row. |
| Migration.MigrationKeepsCells | app.py:146-158 | No column is dropped. Cells outside the date columns are unchanged, and date cells become their parse. |
| Migration.MigrationFixesCanonical | app.py:146-158 | A frame that already has both filled columns and settled dates passes through unchanged. |
| Migration.MigrationIdempotent | app.py:146-158 | Cleaning up twice gives the same result as cleaning up once. |
| Frames.Frame.constructor | app.py:142 | A frame read from a stored table holds exactly that table. |
| Frames.Frame.Migrate | app.py:146-158 | The in-place assignments leave the frame equal to `Migrated` of the old frame. They report the missing date column exactly when `Migrated` fails. |
| Frames.Frame.Update | app.py:219 | The update succeeds exactly when the edited labels are distinct. On success the frame becomes `Updated` of the old frame; otherwise it is unchanged. |
| Kpi.Where | app.py:161-163 | A masked frame holds exactly the rows satisfying the mask, and no more rows than the frame. |
| Kpi.RevenueConcat | app.py:161 | Revenue adds up over consecutive parts of the ledger. |
| Kpi.RevenueIsSumOfShares | app.py:161 | Revenue is the sum of per-row shares. A cancelled row's share is 0; any other row's share is its rent. |
| Kpi.RevenueSplitAt | app.py:161 | The revenue equals the revenue before row i, plus row i's share, plus the revenue after row i. |
| Kpi.RevenueCountsExactlyUncancelled | app.py:161 | Changing one row's rent moves the revenue by the difference exactly when that row is not cancelled. |
| Kpi.ActiveRentalsConcat | app.py:162 | The on-rent count adds up over consecutive parts of the ledger. |
| Kpi.OccupiedDevicesIff | app.py:163 | A device id is occupied if and only if some reserved or picked-up order carries it. |
| Kpi.ClosedOrderOccupiesNothing | app.py:163-164 | Removing a returned or cancelled order changes neither the occupied set nor the estimate. |
| Kpi.OccupiedAtMostOccupyingOrders | app.py:163 | There are at most as many occupied ids as occupying orders. |
| Kpi.AvailableEstimateBounds | app.py:164 | The estimate is at most the catalogue size and equals it when nothing is occupied. It drops by at most one per occupying order. |
| Kpi.OccupiedDevicesCons | app.py:163 | An occupying order adds its device id to the occupied set of the rows after it. |
| Kpi.DistinctOrdersOccupyOneEach | app.py:163 | Occupying orders with pairwise different device ids occupy exactly one id each. |
| Kpi.AvailableEstimateOfDistinctOrders | app.py:164 | n such orders leave the estimate at 6 - n, with no floor: seven orders give -1. |
| Kpi.WhereAllKept | app.py:161-163 | A mask that every row satisfies keeps the frame unchanged. |
| Kpi.RevenueIgnoresOrder | app.py:161 | Reordering the rows leaves the revenue unchanged. |
| Kpi.ActiveRentalsIgnoreOrder | app.py:162 | Reordering the rows leaves the on-rent count unchanged. |
| Kpi.KpisIgnoreOrder | app.py:161-170 | Reordering the rows leaves all four figures unchanged. |
| Kpi.OneOrderKpis | app.py:161-164 | A one-order ledger has that order's share of revenue, one rental if it is picked up, and its device occupied exactly when it is reserved or picked up. |
| Kpi.RevenueReadsCellsOnly | app.py:161 | Rows whose cells read alike give the same revenue. |
| Kpi.ActiveRentalsReadsCellsOnly | app.py:162 | Rows whose cells read alike give the same on-rent count. |
| Kpi.OccupiedReadsCellsOnly | app.py:163 | Rows whose cells read alike give the same occupied set. |
| Kpi.KpisReadCellsOnly | app.py:161-170 | Rows whose cells read alike give the same four figures. A padded missing column reads like an absent one. |
| MonthView.InsertMonth | app.py:184 | Inserting a month keeps the list strictly newest first and adds exactly that month. |
| MonthView.Months | app.py:181-184 | The picker's months are strictly descending, so each appears once. |
| MonthView.MonthsAreTheRowsMonths | app.py:181-184 | A month is offered if and only if some row's start date falls in it. Unknown dates add no month. |
| MonthView.FilterUpTo | app.py:194 | The filter keeps each row of the month under its own label, in ledger order, and no other row. |
| MonthView.Indexed | app.py:191 | The full view has one labeled row per ledger row. |
| MonthView.NoOlderTransitive | app.py:192 | The newest-first order is transitive. |
| MonthView.NoOlderTotal | app.py:192 | Any two rows are comparable in the newest-first order. |
| MonthView.PrependNewest | app.py:192 | A row no older than the head of a newest-first list can go first. |
| MonthView.HeadStaysNewest | app.py:192 | A row older than the head goes after the head. |
| MonthView.InsertByDate | app.py:192 | Insertion keeps the list newest first and adds exactly that row. |
| MonthView.SortNewestFirst | app.py:190-192 | The show-all sort gives a newest-first permutation of its input. |
| MonthView.MonthViewIsExact | app.py:190-194 | A month view contains row i under label i if and only if row i is in that month. Labels increase and every row matches the ledger. |
| MonthView.ShowAllListsEveryRow | app.py:190-192 | Show-all lists every row once, under its label, newest first, with unknown dates last. |
| MonthView.UndatedRowInNoMonth | app.py:182-194 | A row with an unknown start date is in no month view but stays in show-all. |
| Merge.RowsOf | app.py:222 | Stripping labels keeps one row per view row. |
| Merge.EditAt | app.py:219 | There is no edit for label i exactly when no edited row carries it. A found edit is the row under that label. |
| Merge.MonthSaveKeepsShape | app.py:218-220 | A month-mode save fails only on repeated labels. Otherwise it keeps the header, the row count and well-formedness. |
| Merge.UpdateLeavesUneditedRows | app.py:219 | A ledger row under no edited label is left exactly as it was, and that includes rows deleted in the editor. |
| Merge.UpdateOverwritesPresentCells | app.py:219 | At an edited label, a cell takes the edited value when that value is present. Otherwise it keeps its old value, and the row keeps its columns. |
| Merge.UpdateIgnoresAddedRows | app.py:219 | Dropping edited rows whose labels are not ledger positions gives the same save. |
| Merge.KeepLedgerRows | app.py:219 | The kept edited rows are edited rows whose labels are ledger positions. |
| Merge.OverlayTwice | app.py:219 | Overlaying the same edit twice gives the same row as once. |
| Merge.UpdateIdempotent | app.py:219 | Applying the same update twice gives the same ledger as once. |
| Merge.UpdateWithOwnRows | app.py:219 | An update that repeats the ledger's own rows under their own labels changes nothing. |
| Merge.SaveUneditedMonthView | app.py:215-222 | Saving an unedited month view writes the loaded ledger back unchanged. |
| Merge.MonthSaveLeavesOtherMonths | app.py:215-222 | A month-mode save, with any edits, leaves every row outside the month untouched, as long as every edited label that names a ledger position names a row of that month. |
| Merge.ShowAllSaveIsVerbatim | app.py:216-217 | A show-all save writes exactly the editor's rows, in the editor's order. |
| Store.OrderRow | app.py:107-128 | The order row has exactly the form's fourteen columns. A single picked date is used as the end date too. |
| Store.OrderRowCells | app.py:111-126 | The order row's status, device id and rent are those the form submitted. |
| Store.Concat | app.py:134 | The concatenated frame is well-formed. |
| Store.AppendAsWrittenKeepsEarlierRows | app.py:130-135 | Appending as written keeps earlier rows' cells and puts the new row last. New columns are missing in earlier rows. |
| Store.AppendAsWrittenBlanksLegacyRows | app.py:133-154 | After an append, as written, a file without 手機編號 and 國家 loads with both columns missing in every old row. |
| Store.AppendAsWrittenLosesLegacyCells | app.py:133-154 | A legacy reservation loads with its phone and 台灣 before an append, and with both missing after it. |
| Store.ConcatOrderIsCanonical | app.py:134 | A clean ledger followed by a form row is still clean. |
| Store.ConcatKeepsCells | app.py:134 | Padding leaves every cell the dashboard reads unchanged. |
| Store.ConcatUpdatesKpis | app.py:134 | One more row adds its revenue share and, if it is picked up, one rental. |
| Store.AppendLoadRoundTrip | app.py:130-158 | Loading after a corrected append gives the earlier load's rows, every cell as before, followed by the new order. |
| Store.AppendUpdatesKpis | app.py:130-170 | After a submission the order count rises by one, the revenue by the order's share, and the on-rent count by one if the order is picked up. |
| Store.Dropped | app.py:235 | Dropping label i leaves one row fewer. Earlier rows stay in place, later rows move up one place, and the header is kept. |
| Store.DeleteUpdatesKpis | app.py:230-235 | Deleting an order subtracts its revenue share, one order, and one rental if it was picked up. |
| Store.RowsOfIgnoresOrder | app.py:190-222 | Two orderings of a view strip to two orderings of the same rows. |
| Store.SaveUneditedShowAll | app.py:190-222 | Saving an unedited show-all view writes a permutation of the ledger, with every figure unchanged. |
| Store.FirstOrderScenario | app.py:107-170 | With no file, one reservation for 1200 loads as one order: revenue 1200, nothing on rent, that phone occupied. |
| Store.LedgerStore.constructor | app.py:130 | Before the first order there is no file. |
| Store.LedgerStore.Load | app.py:141-158 | With no file the load fails with NoLedger. Otherwise it returns `Migrated` of the file, and a successful load is clean. |
| Store.LedgerStore.Append | app.py:130-135 | The file becomes `Appended` of the old file: the order alone, or after the cleaned-up ledger. |
| Store.LedgerStore.ReplaceAll | app.py:222 | The file holds exactly the written table. |
| Store.LedgerStore.Save | app.py:215-222 | The file is written exactly when `Saved` succeeds, and then holds `Saved` of the loaded frame. Otherwise the file is unchanged. In month mode a successful save leaves the frame equal to the written table; otherwise the frame is unchanged. |
| Store.LedgerStore.DeleteAt | app.py:230-235 | The file holds the loaded frame without row i. |

## Left out

- Streamlit widgets, tabs, charts, toasts and reruns are left out.
  Values a widget returns are parameters.
- CSV reading and writing, the `utf-8-sig` encoding, and the
  empty-field-to-NaN conversion of a round trip through a file are left
  out. The file is its table.
- The upload-and-restore branch, lines 96-104, is not part of this model.
- The clock is left out. The creation time is the parameter `createdAt`,
  already formatted.
- Date parsing is left out. `pd.to_datetime`'s rules are an opaque
  parser parameter.
- The 'YYYY-MM' strings are left out. Months are compared as (year,
  month), which matches the strings' order for four-digit years.
- Floating point is left out. Rents are integers.
- Kpi.RentOf reads a non-numeric rent as 0; the script's sum would raise
  a TypeError on a column mixing numbers and text.
- Kpi.Revenue: an absent 狀態 or 租金 column reads as missing cells. The
  script would raise a KeyError there.
- Kpi.OccupiedDevices: a missing device id counts as one value. This is
  how NaN behaves in an object column; an all-NaN float column would
  count each NaN separately.
- MonthView.SortNewestFirst picks one newest-first order. pandas' sort is
  not stable, so the order of tied rows is not modelled.
- Store.LedgerStore.DeleteAt takes the chosen label directly. Formatting
  the option strings and parsing the number back are left out.
- Kpi.AvailableEstimate has no floor at zero: line 164 has no clamp, so
  neither does the model.
- Store.LedgerStore.Append models the corrected append (see Findings).
  The as-written behaviour is `Store.AppendAsWritten`.
- Concurrent sessions writing the same file are left out.

## Findings

| source | as written | input that shows it | evidently intended | confidence | as-written member | corrected member |
|---|---|---|---|---|---|---|
| app.py:133-135 | The new order is concatenated to the raw file, before any clean-up. A legacy file without 手機編號 and 國家 gets those columns from the new row, and its old rows are padded with NaN. The next load sees both columns present and fills nothing. | A file with one reserved order, columns 狀態, 手機型號 "S25U 白色", 開始日期, 結束日期 and 租金, plus any submitted order (`Store.AppendAsWrittenLosesLegacyCells`). | The legacy rows keep the device id and country the clean-up gives them on load. The old ledger is cleaned up before the new row is appended, and loading after an append gives the earlier load plus the new order (`Store.AppendLoadRoundTrip`). | not executed | Store.AppendAsWritten | Store.Appended |
