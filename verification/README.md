# Money tracker reconciliation, modelled in Dafny

This project models the two computations of the money tracker
(`moneytracker.py`, class `Money`) that sit between loading the workbook
and printing or saving a result:

* **Share settlement** (`Money.calculate_share`). The cutoff is the latest
  `Date` among rows with `Category == "Share_Payment"`, or 2021-05-01 when
  there is none. Rows dated strictly after it form the window. Two
  per-category series are built over the window and added with
  `fill_value=0`. "Jayne's" rows give `abs(sum // 10) * 10`. Rows flagged
  `Share` give `abs(sum // 20) * 10`. The report is the merged series and
  its total.
* **Balance snapshot** (`Money.update_balance` with `Money._check_columns`).
  A sheet with a column named `Unnamed…` is rejected. Otherwise the
  rightmost column is the baseline; its label is a date, and
  `"Init Balance"` stands for 2021-05-01. Each account gets its baseline
  plus the `Amount`s of transactions from that account dated after the
  baseline. The result goes in a new column labelled with today's ISO date,
  or replaces the column of that label if it already exists.

Files, one module each:

* `wrappers.dfy`: `Option` and `Result`.
* `text.dfy`: `startswith`, Python's ordering of `str`, and fixed-width
  decimal digits.
* `dates.dfy`: calendar dates, their order, ISO formatting and parsing.
* `ledger.dfy`: the `Transaction` record, row selection, and the per-category
  and per-account sums.
* `series.dfy`: a pandas Series keyed by strings. It is modelled as a
  key-sorted list of entries, because `groupby` sorts its keys. It has
  `add(fill_value=0)` and `sum()`.
* `share.dfy`: the share settlement.
* `balance.dfy`: the balance sheet, the column check and the update.

The clock (`datetime.now()`) is the `today` parameter. The workbook is
passed in as values: a transaction list and a balance `Table`. The update
returns the new table rather than writing it.

Two behaviours of the code are easy to misread:

* The sum is floor-divided before `abs` is applied. So a "Jayne's" sum of
  -23 gives `-23 // 10 == -3` and a payment of 30. Truncating the magnitude
  would give 20 (`Share.JaynesExample`). In general an expense's magnitude
  is rounded up to whole units and an income's is rounded down
  (`Share.Bucket`).
* The malformed-column path calls `sys.exit()` with no argument, which ends
  the process with status 0. The model returns
  `Failure(UnnamedColumns(columns))` and does not model an exit status.
* Each update counts every transaction dated after its baseline, including
  transactions dated after the day of the update. The next update starts
  from that day's label, so it counts those transactions again. Two updates
  then add such an amount twice, where one update over the whole period adds
  it once (`Balance.FutureDatedCountedTwice`). Successive updates agree with
  a single one only when no transaction is dated after the day of the
  earlier update (`Balance.IncrementalUpdates`).

## Model

| member | source | states |
|---|---|---|
| Share.LatestSettlement | moneytracker.py:25 | `None` exactly when no row has category `Share_Payment`. Otherwise it is the date of some such row and no such row is dated later (the column maximum). |
| Share.Cutoff | moneytracker.py:25-27 | The cutoff is 2021-05-01 when there is no settlement row. Otherwise it is the latest settlement date. |
| Share.Window | moneytracker.py:28 | The window keeps exactly the rows dated after the cutoff, with their multiplicities. It holds no settlement row. Without settlements, every row in it is dated after 2021-05-01. |
| Ledger.DatedAfter | moneytracker.py:28 | Every kept row is dated strictly after the cutoff, and every such row is kept with its multiplicity; no other row is kept. |
| Ledger.Filter | moneytracker.py:28-29 | A boolean-mask selection keeps exactly the rows satisfying the mask, with their multiplicities, and nothing else. |
| Share.FloorDiv | moneytracker.py:32 | Python `//` for a positive divisor: `q*b <= a < q*b + b`, that is, rounding toward minus infinity. |
| Share.Bucket | moneytracker.py:32-42 | `abs(sum // unit) * 10` is a non-negative multiple of 10. For `sum >= 0` it counts whole units below the sum. For `sum < 0` it counts units up to the magnitude, rounded up. |
| Share.GroupByCategory | moneytracker.py:32 | `groupby("Category")["Amount"].sum()` is key-sorted, has exactly the categories of the rows, holds each category's own total, and its values add up to the total amount. |
| LabelledSeries.Insert | moneytracker.py:32 | Adding one row's amount to a sorted series keeps it sorted, adds its key, changes only that key's value, and raises the sum by the amount. |
| LabelledSeries.Apply | moneytracker.py:33-34 | `.apply(f)` keeps the keys and the order and maps each present value through `f`. |
| LabelledSeries.Add | moneytracker.py:43 | `add(fill_value=0)`: the key set is the union of both key sets, each value is the sum of both sides with an absent side read as 0, and the result is sorted. |
| LabelledSeries.SumAdd | moneytracker.py:43-45 | The total of the merged series is the sum of the two series' totals. |
| Share.BucketedLookup | moneytracker.py:32-34 | At every category, the bucketed grouped series reads as the bucket of that category's total, and a category with no rows reads as 0. |
| Share.JaynesSeries | moneytracker.py:29-34 | `jayne_category` is key-sorted, has exactly the categories of the window's "Jayne's" rows, and holds `abs(S // 10) * 10` of each category's "Jayne's" total `S`. |
| Share.SharedSeries | moneytracker.py:36-42 | `shared_category` is key-sorted, has exactly the categories of the window's `Share`-flagged rows, and holds `abs(S // 20) * 10` of each category's shared total `S`. |
| Share.Payments | moneytracker.py:36-43 | The merged series holds exactly the categories of the shared rows and the "Jayne's" rows of the window. Each value is `abs(S_shared // 20)*10 + abs(S_jaynes // 10)*10`. |
| Share.BucketedSum | moneytracker.py:33-34 | A series whose every value is bucketed totals a non-negative multiple of 10. |
| Share.PaymentsTotal | moneytracker.py:43-45 | The printed total equals the shared total plus the "Jayne's" total, and it is a non-negative multiple of 10. |
| Share.CalculateShare | moneytracker.py:23-45 | The report is the merged series over the window, with total = shared total + "Jayne's" total, a non-negative multiple of 10. An empty window gives an empty series and a total of 0. |
| Share.CutoffAppend | moneytracker.py:25-27 | A row that is not a settlement does not move the cutoff. |
| Share.UnrelatedRowIgnored | moneytracker.py:29-43 | A row that is neither a settlement, nor "Jayne's", nor `Share`-flagged leaves the whole report unchanged. |
| Share.SettlementResets | moneytracker.py:25-28 | After a settlement dated no earlier than any other row, the report is empty with total 0. |
| Share.JaynesExample | moneytracker.py:29-45 | One "Jayne's" row of -23 in category Food after 2021-05-01 gives `Food: 30` and a total of 30. |
| Balance.CheckColumns | moneytracker.py:102-107 | Returns true exactly when some column name starts with "Unnamed". |
| Balance.BaselineDate | moneytracker.py:92-94 | "Init Balance" stands for 2021-05-01. Any other label denotes date `d` exactly when it is `d` written as `YYYY-MM-DD`. |
| Dates.ParseFormatIso | moneytracker.py:94-96 | A column label written with `strftime("%Y-%m-%d")` reads back as the same date. |
| Dates.ParseIsoIff | moneytracker.py:94-96 | A label parses to `d` if and only if it is `d` in ISO form. |
| Balance.LatestLabel | moneytracker.py:87 | The baseline label is the last entry of the sheet's column list, the account column included. |
| Balance.WithColumn | moneytracker.py:96-98 | `df[label] = values` replaces the column when the label exists, and appends it otherwise. Rows, accounts and all other columns stay as they were, and the column holds the values in row order. |
| Balance.UpdateBalance | moneytracker.py:80-98 | It fails with `UnnamedColumns` if and only if a column starts with "Unnamed". It fails with `UnparsableBaseline` if and only if no column is unnamed and the rightmost label names no date. It succeeds if and only if neither applies. On success the new column holds baseline + flow after the baseline date for each account, and nothing else changes. |
| Balance.NewValues | moneytracker.py:96-98 | One value per account row, in row order: the row's rightmost value plus the flow of its account in the window. With an empty window every account keeps its rightmost value. |
| Balance.NewValuesAppend | moneytracker.py:96-98 | One more transaction in the window changes only the values of rows of its source account, each by its amount. |
| Balance.NoActivityKeepsBalance | moneytracker.py:96-98 | An account with no transaction in the window keeps its baseline value. |
| Balance.BackdatedEntryIgnored | moneytracker.py:94 | A transaction dated on or before the baseline changes nothing in the update. |
| Balance.SameDayRerun | moneytracker.py:87-98 | A second update on the same day, with nothing dated later, returns the table unchanged: the day's column is replaced, not duplicated. |
| Balance.IncrementalUpdates | moneytracker.py:87-98 | Two successive updates give each account the first baseline plus all flow since it, under two conditions. No transaction the first update saw is dated after its day. Every transaction entered after it is dated after that day. |
| Balance.FutureDatedCountedTwice | moneytracker.py:87-98 | A transaction dated after the day of the first update is counted by both updates. The second update's column holds baseline + twice its amount, while one update over the whole period holds baseline + its amount. |
| Ledger.Flow | moneytracker.py:96 | An account's flow is 0 when no row names it, and the total amount when every row names it. |
| Ledger.FlowSingle | moneytracker.py:96 | A single row's amount counts toward its own source account only. |
| Ledger.FlowAppend | moneytracker.py:96 | An account's flow is additive over consecutive stretches of transactions. |
| Ledger.CategoryTotalAbsent | moneytracker.py:32 | A category that no row carries totals 0. |

## Left out

- `append_df_to_excel` (workbook writing through openpyxl), `pd.read_excel`
  loading and the `argparse` dispatch are I/O and command-line plumbing. The
  update returns the new table instead of saving it.
- `datetime.now()` is the `today` parameter.
- `monthly_category` computes groupings that it never returns or stores, so
  there is nothing to model.
- The Markdown printing of the report is formatting. The model keeps the
  series and the total that are printed.
- `Amount` is an integer, not a float. With integral amounts, `astype(int)`
  and `math.ceil` are identities, so they have no counterpart. Balances are
  integers too; NaN cells are not modelled.
- Empty cells on the Transactions sheet are not modelled. Every row has a
  category, an amount, a source and a `Share` flag. pandas would drop rows
  with an empty `Category` from `groupby`, skip empty `Amount`s in `sum()`,
  and could not use an empty `Share` cell as a boolean mask.
- Transaction dates are calendar days, so time of day is not modelled. Valid
  years are 1000 to 9999; pandas' narrower `Timestamp` range is not modelled.
- Balance.BaselineDate: only the `YYYY-MM-DD` form (the one the tracker
  writes) and "Init Balance" are read. The other formats `pd.to_datetime`
  accepts, and header cells that Excel stores as dates, are not modelled.
- Balance.UpdateBalance: the account column is always the first one and is
  named "Account". The source uses `columns[0]` as the index and iterates
  `balance["Account"]`; these differ only on sheets this model cannot
  represent.
- Balance.UpdateBalance: each row's baseline is read from its own row. With
  duplicate account names, pandas' `current_balance[account]` returns
  several values; that case is not modelled. A label that occurs twice is
  replaced at its first position.
- The process exit status of the malformed-sheet path is not modelled (the
  source's `sys.exit()` exits with status 0).
