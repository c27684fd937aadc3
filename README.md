# Personal expense tracker: a verified model of the loader and the dashboard

The personal expense tracker has two parts. A batch loader reads a bank-statement export, cleans it and turns each transaction into a canonical record. A dashboard categorises those transactions and summarises them. This project models the logic of both parts in Dafny 4.11 and proves what that logic promises.

Modules:

- `Text`: the string primitives the scripts rely on. This covers Python's whitespace `strip`, ASCII `lower`/`upper`, substring tests, removal of a character, and the string order that `sorted` uses.
- `Seqs`: order-preserving filtering of sequences, the model of boolean-mask row selection.
- `Options`: the `Option` type.
- `Headers`: header normalisation in `src/load_bank_data.py`. A header is stripped and lower-cased, then each maximal run of whitespace, `/`, `₦`, `(` or `)` becomes one `_`.
- `Amounts`: the signed-amount extractors `extract_debit` and `extract_credit`.
  - Amounts are exact `real`s read with the decimal subset of Python's `float()`: `[sign](digits[.[digits]] | .digits)`, with surrounding whitespace allowed.
  - Any other text is a parse failure, which the extractors turn into `0`.
  - The module also has a renderer of amounts in cents, used for round-trip lemmas.
- `Ingest`: the loader's `main`, steps 2 to 9 and the records of line 129.
  - A sheet is a `Table`: a header list plus rows of `Cell`s. A `Cell` is `Null` (Python `None`/`NaT`), `Nan` (an empty spreadsheet cell), `Str(s)` (a value as its `str()` text) or `Amount(x)`.
  - Each step is a value-level function on `Table`.
  - The mutable dataframe is the class `Frame`. Each of its methods performs one step in place and is proved equal to that step's function.
  - `Frame.Load` runs the whole script and is proved to return `Transform` of the table it started from.
  - `TransformRecords` then characterises every output record field by field (`CanonicalRecord`).
- `Categories`: `categorize` as an ordered rule table. The first rule with a keyword in the lower-cased description wins; otherwise the result is "Other".
- `Dashboard`: the dashboard's script body.
  - A row is a `Txn` with `desc`, `debit`, `credit`, `channel`, `monthKey` and `category`.
  - The category column is filled in place over an array by `AddCategories`.
  - The month selector, month filter, KPI metrics, category and channel summaries, and monthly trend are functions over sequences of rows, with lemmas.

One step of the loader does not do what its code evidently means. The replace map at src/load_bank_data.py:87 sends the missing-value markers "NAN" and "" to "UNKNOWN", but a channel column that step 4 adds as `None` cleans to "NONE". The model proves both behaviours. Its pipeline (`Ingest.Field`, `Ingest.Transform`, `Ingest.Frame.Load`) uses the corrected cleaning, which agrees with the code on every value a sheet's own channel column can hold; "## Findings" records the divergence.

## Model

| member | source | states |
|---|---|---|
| Categories.Categorize | app.py:37-51 | every description gets one of the seven fixed labels |
| Categories.CategorizeIsFirstMatch | app.py:37-51 | categorising is taking the first rule, in table order, with a keyword contained in the lower-cased description |
| Categories.CategorizeOther | app.py:37-51 | the result is "Other" if and only if no keyword of any rule occurs in the lower-cased description |
| Categories.CategorizePrecedence | app.py:39-50 | a description gets rule k's label if and only if it contains a keyword of rule k and none of any earlier rule |
| Categories.FirstMatchIs | app.py:39-50 | for any table whose labels are distinct and not "Other", the first-match result equals rule k's label if and only if rule k matches and no earlier rule does |
| Categories.AnyInMeans | app.py:39-49 | a keyword group matches exactly when one of its keywords is a substring |
| Categories.AirtimeWins | app.py:39-40 | any description containing "airtime" or "data" is "Airtime & Data", whatever else it contains |
| Categories.TransferBeatsBetting | app.py:43-48 | a description containing "transfer" and "bet" is "Transfers" when no airtime, data or food keyword occurs |
| Categories.TransferNeverLater | app.py:39-44 | a description containing "transfer" never reaches a rule after "Transfers" |
| Categories.CategorizeIgnoresCase | app.py:38 | upper- or lower-casing the description does not change its category |
| Categories.SameLowerSameCategory | app.py:38 | descriptions equal up to case get the same category |
| Categories.PiggyVestExample | app.py:45-46 | "Monthly Auto-Save to PiggyVest" is "Savings" |
| Categories.ShopriteExample | app.py:49-50 | "POS Purchase at Shoprite" is "Cash Withdrawal" |
| Categories.RentExample | app.py:51 | "Rent" matches no rule and is "Other" |
| Categories.SavingsWhen | app.py:45-46 | any of "auto-save", "owallet", "piggy" or "save", with no keyword of an earlier rule, gives "Savings" |
| Categories.TransferWhen | app.py:43-44 | "transfer", with no airtime, data or food keyword, gives "Transfers" |
| Categories.TransferExample | app.py:43-44 | "Transfer to John" is "Transfers" |
| Categories.RandomTextExample | app.py:51 | "Random text", which holds every letter of "data" and of "atm" but neither word, is "Other" |
| Categories.CashWhen | app.py:49-50 | any of "atm", "pos" or "withdrawal", with no keyword of an earlier rule, gives "Cash Withdrawal" |
| Categories.OtherWhen | app.py:51 | no keyword at all gives "Other" |
| Dashboard.AddCategories | app.py:59 | every row's category becomes the category of its own description, and no other field changes |
| Dashboard.MonthOptionsShape | app.py:64 | the selector list starts with "All", followed by each month key of the data exactly once, in strictly descending order |
| Dashboard.SortedKeysSpec | app.py:64 | sorted unique keys are duplicate-free, strictly ascending, and exactly the keys of the rows |
| Dashboard.DistinctSpec | app.py:64 | `unique()` keeps each value once, with the same set of values |
| Dashboard.SortAscSpec | app.py:64 | `sorted` gives an ascending permutation of its input |
| Dashboard.SortDistinct | app.py:64 | sorting duplicate-free keys gives a strictly ascending sequence of the same keys |
| Dashboard.ReverseStrict | app.py:64 | `reverse=True` turns a strictly ascending key list into a strictly descending one |
| Dashboard.FilterMonthKeeps | app.py:68-71 | "All" keeps every row; any other selection keeps a row exactly when its month key equals the selection, each as often as in the data |
| Dashboard.FilterMonthOrder | app.py:68-71 | the filter keeps the original row order: filtering a concatenation concatenates the filtered parts |
| Dashboard.NetFlowRows | app.py:74-76 | net flow is the sum over the selected rows of credit minus debit |
| Dashboard.NetFlowConcat | app.py:74-76 | net flow adds up over consecutive stretches of rows |
| Dashboard.NetFlowExample | app.py:74-76 | a 100 debit and a 40 credit give a net flow of -60 |
| Dashboard.TotalSavedUnguarded | app.py:79-81 | with non-negative amounts, total saved is the Savings debits minus the Savings credits of the whole dataset |
| Dashboard.SavingsOutUnguarded | app.py:79 | with non-negative debits, the `> 0` guard does not change the Savings debit sum |
| Dashboard.PositiveGuardHarmless | app.py:79-80 | a positive-amount guard never changes a sum of non-negative amounts over the Savings rows |
| Dashboard.TotalSavedExample | app.py:79-81 | saving 100 and taking 40 back out of savings is a savings net of 60, whatever the other categories hold |
| Dashboard.NegativeCreditIgnored | app.py:80 | a negative Savings credit is left out of savings_in, so the guard matters once amounts can be negative |
| Dashboard.SumForIsMaskedTotal | app.py:95-96 | a group's total is the sum of the amounts over the rows whose key equals that group's key |
| Dashboard.GroupedTotal | app.py:94-99 | when every row's key is among the distinct group keys, the group totals add up to the total of all rows |
| Dashboard.SortByTotalSpec | app.py:97 | `sort_values(ascending=False)` gives a permutation of the groups with totals in non-increasing order |
| Dashboard.PermutedGroups | app.py:97 | reordering groups keeps their keys and the sum of their totals |
| Dashboard.SummarySpec | app.py:94-116 | a summary, by category or by channel, has one entry per distinct key of the selection, each holding that key's debit sum, in non-increasing order of total, and the totals add up to the selection's total_spent |
| Dashboard.TrendRows | app.py:122-125 | each trend row holds its month's debit sum and credit sum over the whole dataset |
| Dashboard.TrendSpec | app.py:122-127 | the trend has one entry per distinct month key of the dataset, keys strictly ascending, and its debit and credit columns add up to the dataset's total debit and total credit |
| Dashboard.TrendColumns | app.py:123-124 | the trend's columns equal the group totals by month for debit and for credit |
| Dashboard.TrendMatchesSelection | app.py:68-76 | a trend row's debit and credit equal the dashboard's total_spent and total_income when that month is selected |
| Amounts.ExtractDebit | src/load_bank_data.py:54-59 | the debit is non-negative, non-zero only when the cleaned text starts with "-", and 0 on a parse failure |
| Amounts.ExtractCredit | src/load_bank_data.py:61-66 | the credit is non-zero only when the cleaned text starts with "+", and 0 when the text without its "+" signs does not parse |
| Amounts.DebitCreditExclusive | src/load_bank_data.py:54-69 | no amount text gives both a non-zero debit and a non-zero credit |
| Amounts.DebitIsMagnitude | src/load_bank_data.py:57 | for a parsable "-" amount, the parsed value is not positive and the debit is its magnitude |
| Amounts.ParseDecimal | src/load_bank_data.py:57 | a parsed value is non-positive after a leading "-" and non-negative otherwise |
| Amounts.ParseTrimmed | src/load_bank_data.py:56-57 | reading already-trimmed text is reading the decimal itself |
| Amounts.DebitExample | src/load_bank_data.py:54-59 | "-1,234.56" gives a debit of 1234.56 |
| Amounts.CleanDebitExample | src/load_bank_data.py:56 | cleaning "-1,234.56" gives "-1234.56" |
| Amounts.CreditExample | src/load_bank_data.py:61-66 | "+500" gives a credit of 500 |
| Amounts.NegativeCreditExample | src/load_bank_data.py:64 | "+-5" gives a credit of -5, because every "+" is removed before parsing |
| Amounts.GarbageExample | src/load_bank_data.py:58-59 | "garbage" gives 0 for debit and for credit |
| Amounts.CreditOfClean | src/load_bank_data.py:63-64 | a clean "+" text gives the parsed value of the rest as its credit |
| Amounts.DebitRoundTrip | src/load_bank_data.py:54-59 | any amount in cents, written with "-", is read back by extract_debit as exactly that amount |
| Amounts.CreditRoundTrip | src/load_bank_data.py:61-66 | any amount in cents, written with "+", is read back by extract_credit as exactly that amount |
| Amounts.ParseShowCents | src/load_bank_data.py:57 | reading a rendered cents amount gives its exact value |
| Text.StripIdempotent | src/load_bank_data.py:32 | stripping twice is stripping once |
| Text.StripShape | src/load_bank_data.py:32 | strip removes exactly a leading and a trailing run of whitespace and leaves neither end on whitespace |
| Text.CaseMappings | src/load_bank_data.py:33 | lower-casing gives lower-case text and is idempotent, likewise upper-casing, and lower-case text is its own lower case |
| Headers.CollapseNoSep | src/load_bank_data.py:34 | the substitution leaves no whitespace, "/", "₦", "(" or ")" |
| Headers.CollapseRun | src/load_bank_data.py:34 | one maximal separator run between two stretches of text becomes exactly one "_" |
| Headers.CollapseFixed | src/load_bank_data.py:34 | text without separators is left unchanged |
| Headers.NormalizedShape | src/load_bank_data.py:31-35 | a normalised header is lower-case and free of every separator |
| Headers.NormalizeIdempotent | src/load_bank_data.py:31-35 | normalising a header twice gives the same header as normalising once |
| Headers.DebitCreditHeader | src/load_bank_data.py:31-35 | "Debit/Credit (₦)" normalises to "debit_credit_" |
| Headers.TransDateHeader | src/load_bank_data.py:31-35 | "Trans. Date" normalises to "trans._date" |
| Ingest.Get | src/load_bank_data.py:40 | a column read succeeds exactly when the name is a header |
| Ingest.GetPut | src/load_bank_data.py:41 | after `df[m] = v`, reading m gives v and every other column reads as before |
| Ingest.GetAssign | src/load_bank_data.py:41 | assigning a whole column changes that column in every row and no other |
| Ingest.PreparedShape | src/load_bank_data.py:27-35 | the prepared table keeps exactly the rows that are not all-empty, in order, and the columns whose header lacks "Unnamed"; its headers are the normalised ones, lower-case and separator-free |
| Ingest.GetNamed | src/load_bank_data.py:28 | dropping "Unnamed" columns leaves every other column's value unchanged |
| Ingest.WithoutUnnamed | src/load_bank_data.py:28 | dropping columns keeps every row |
| Ingest.EnsureColumnSpec | src/load_bank_data.py:39-41 | a present column leaves the table unchanged; a missing one is appended, filled with null, and every other column reads as before |
| Ingest.EnsureAllNames | src/load_bank_data.py:39-41 | after the loop, the headers are exactly the old ones plus the essential names |
| Ingest.EnsureAllKeeps | src/load_bank_data.py:39-41 | the loop keeps every existing column and row and pads only with null cells |
| Ingest.EnsureAllReads | src/load_bank_data.py:39-41 | non-essential columns read as before, and every column reads as the original or null |
| Ingest.DateFields | src/load_bank_data.py:44-51 | trans_date is parsed from "trans._date" if present, else from "trans_date", else null for every row; value_date from "value_date" or null |
| Ingest.AmountFields | src/load_bank_data.py:68-79 | every row gets a non-negative debit, a credit that is 0 whenever the debit is not, and a balance that is a number or NaN |
| Ingest.BalanceOf | src/load_bank_data.py:72-79 | the balance is a number exactly when the cleaned text parses, and NaN otherwise |
| Ingest.CleanChannelSpec | src/load_bank_data.py:82-88 | the trimmed, upper-cased channel is kept, except that exactly "NAN" and "" become "UNKNOWN"; the result is upper-case |
| Ingest.ChannelOf | src/load_bank_data.py:82-88 | every cleaned channel is non-empty and never "NAN"; a missing channel is "UNKNOWN" |
| Ingest.ChannelField | src/load_bank_data.py:82-88 | every row's channel is non-empty, upper-case text other than "NAN" |
| Ingest.MissingChannelAsWritten | src/load_bank_data.py:39-41 | as written, a channel column defaulted to None cleans to "NONE" |
| Ingest.MissingChannelCorrected | src/load_bank_data.py:82-88 | the corrected cleaning sends a missing channel and an empty cell to "UNKNOWN" and agrees with the code on every text value |
| Ingest.PlainFields | src/load_bank_data.py:91-96 | columns the loader does not compute pass through unchanged |
| Ingest.StepGet | src/load_bank_data.py:44-88 | each derived-column assignment sets that column of every row to its computed value and changes no other column |
| Ingest.FinalColumns | src/load_bank_data.py:91-96 | keeping the present entries of final_cols, when all but "description" are present, gives final_cols with or without "description", in final_cols order |
| Ingest.TransformColumns | src/load_bank_data.py:91-96 | the output columns are final_cols, minus "description" when the sheet has none |
| Ingest.TransformRecords | src/load_bank_data.py:27-96 | there is one record per row that survives step 2, in order, and each record is that row's fields in output-column order |
| Ingest.FinalNamesPresent | src/load_bank_data.py:39-88 | after the defaults and derivations, every name of final_cols is a column, and "description" is one exactly when the sheet had it |
| Ingest.FinishColumns | src/load_bank_data.py:91-96 | the projection of the derived table has final_cols as its columns, minus "description" when the prepared sheet lacks it |
| Ingest.Projected | src/load_bank_data.py:129 | there is one record per row, each with one cell per output column |
| Ingest.Frame.constructor | src/load_bank_data.py:24 | the frame holds the sheet as read |
| Ingest.Frame.DropEmptyRows | src/load_bank_data.py:27 | the frame loses exactly its all-empty rows |
| Ingest.Frame.DropUnnamedColumns | src/load_bank_data.py:28 | the frame loses exactly its "Unnamed" columns |
| Ingest.Frame.StandardizeHeaders | src/load_bank_data.py:31-35 | every header of the frame is replaced by its normalised form |
| Ingest.Frame.SetColumn | src/load_bank_data.py:41 | the frame gets the given column, overwriting or appending it |
| Ingest.Frame.EnsureEssentials | src/load_bank_data.py:39-41 | the loop adds, as null columns, exactly the missing essential columns |
| Ingest.Frame.DeriveColumn | src/load_bank_data.py:44-88 | one derived column is computed and stored in the frame |
| Ingest.Frame.Prepare | src/load_bank_data.py:27-41 | steps 2 to 4 leave the frame prepared, with the essential columns ensured |
| Ingest.Frame.DeriveColumns | src/load_bank_data.py:44-88 | steps 5 to 8 assign trans_date, value_date, debit, credit, balance_ and channel in that order |
| Ingest.Frame.Load | src/load_bank_data.py:27-96 | the in-place run of the script returns exactly the functional transformation of the sheet it started from |

## Left out

- Database work is not modelled: `connect_db`, `load_dotenv`, the SQL reads and writes, DROP/CREATE, `execute_values` and commit (src/load_bank_data.py:10-19 and 101-145; app.py:13-34). These are I/O and foreign library calls.
- `pd.read_excel` with `skiprows=2` is not modelled (src/load_bank_data.py:24): the sheet is the constructor's `Table`.
- `pd.to_datetime` is the parameter `parseDate` of `Ingest.Transform` and `Ingest.Frame.Load`: date parsing is a library function. A missing date column is null (`NaT`).
- The month key that app.py:32-33 derives with `to_period("M")` is the given field `monthKey` of a row.
- The re-conversion of dates to Python datetimes, the NaN/NaT-to-None replacement and the numpy-to-tuple conversion are representation plumbing and are not modelled (src/load_bank_data.py:122-129). A record is the sequence of its cells.
- Python `float()` beyond plain decimals is not modelled: exponents, `inf`/`nan`, underscores and binary rounding. Amounts are exact reals, so a parse failure stands for every other text.
- Ingest.Field, Ingest.TransformRecords, Ingest.Frame.Load: compose the corrected channel cleaning `Ingest.ChannelOf`, so for a sheet without a channel column they give "UNKNOWN" where the script as written gives "NONE" (see "## Findings"; the as-written value is `Ingest.ChannelAsWritten`).
- Ingest.BalanceOf: `pd.to_numeric` is modelled by the same decimal grammar as `float()`. Its other accepted forms are not modelled.
- Non-ASCII case mapping is not modelled: `lower`/`upper` change only ASCII letters.
- Duplicate column headers are not modelled: a column read takes the first header of that name.
- A description that is not text is given to `categorize` as its `str()` text. Numeric cells of the sheet are given as `Str` holding their text.
- Dashboard.SortByTotalSpec: pandas sorts with an unstable sort, so the order of groups with equal totals is unspecified. The model uses a stable insertion sort and states only the non-increasing order and the permutation.
- Categories.TransferBeatsBetting: requires that no airtime, data or food keyword also occurs, because such a keyword wins over "transfer".
- Streamlit, matplotlib and seaborn output is not modelled: metrics, charts, `₦{:,.0f}` formatting, the savings detail table (app.py:131-163) and caching.
- The `print` calls of the loader are not modelled.

## Findings

| source | as written | input that shows it | evidently intended | confidence | as-written member | corrected member |
|---|---|---|---|---|---|---|
| src/load_bank_data.py:39-41, 82-88 | a missing channel column is defaulted to `None`; `astype(str)` turns it into "None", which cleans to "NONE" | a sheet without a channel column | a missing channel is "UNKNOWN", like an empty one | not executed | Ingest.MissingChannelAsWritten | Ingest.MissingChannelCorrected |
