# Statement import and transaction views, modelled in Dafny

A personal-finance web app lets a user upload a bank statement as a CSV file or
a spreadsheet. The user maps the file's columns to transaction fields, and the
import endpoint writes the resulting transactions. The app then lists, filters
and edits transactions and shows cash-flow analytics.

This project models the core of that pipeline. Each piece of the model takes
the form of its source:

- `file_parsers.dfy` (module `FileParsers`), pure functions over the parser's
  output. It builds header normalisation with the `Column N` placeholders,
  trims cells, treats a missing cell as `""`, and builds each row with
  `Object.fromEntries`, where a later duplicate column wins. It picks the branch
  by the last extension, compared case-insensitively.
- `import_route.dfy`, in two modules:
  - `ImportRoute` holds the pure decisions of `POST /api/transactions/import`:
    - the first-wins inversion of the column mapping;
    - the check of the required fields `date`, `amount` and `description`;
    - `parseAmount`, whose cleaning is proved equal to keeping digits, `.` and
      `-`, with `Number.parseFloat` on the cleaned text modelled as exact decimal arithmetic;
    - row normalisation with its defaults;
    - the three error responses.
  - `ImportWrite` holds the imperative half: a `Database` class with an account
    table and a transaction table. It models the per-call account cache, the
    find-or-create of accounts, the row loop and the single bulk insert.
- `import_mappings.dfy` (module `ImportMappings`): a `MappingStore` class, a map
  from bank name to saved column mapping. GET reads it and POST upserts into it.
- `transactions_query.dfy` (module `TransactionsQuery`): `getTransactions`, an
  order-preserving filter by month, account and free-text search.
- `transactions_table.dfy` (module `TransactionsTable`): the table's React state
  as a `TableState` class with one field per state hook and one method per
  callback. Setters are applied in the order the callback calls them. Every
  value a callback reads is taken before its first setter runs, so this order
  gives the same result as React's batching.
- `analytics.dfy` (module `Analytics`), the discrete rules of the analytics page:
  - the preset and currency read from the URL;
  - preset ranges and the granularity of a custom range;
  - the swap of a reversed custom range;
  - the previous comparison period;
  - the zero guard of the percentage delta;
  - the walk of the timeline cursor, kept as a `while` loop.
- `date_label.dfy` (module `DateLabel`): `formatTransactionDate`, which shows
  "Hoy", "Ayer", a weekday name, or the day and month, followed by the time.
- Helpers:
  - `wrappers.dfy`: `Option` and `Result`;
  - `text.dfy`: the JavaScript string operations used above (`trim`, ASCII
    `toLowerCase`, `startsWith`, `includes`, decimal digits);
  - `seqs.dfy`: de-duplication in first-occurrence order and removal of a value;
  - `domain.dfy`: the `Transaction` record and the column mapping type.

Dates are local calendar days, counted as integer day numbers. The import route
keeps an instant from `new Date(...)`. Parsing (`new Date`), `Intl` formatting
and `setMonth` cannot be modelled here, so each enters as a function parameter.
A column mapping is the sequence of entries that `Object.entries` yields, in
order.

The import stores `type` as `"debit"` or `"credit"` when no type column is
mapped. Elsewhere in the app, transactions use `"income"` and `"expense"`. The
model keeps the import's vocabulary as written and does not reconcile the two.

Two behaviours of the code worth noting:

- A workbook header cell that is `null` is stringified to `"null"`
  (`String(header)`). The CSV branch uses `String(header ?? "")` instead, so
  only a CSV null header becomes a `Column N` placeholder.
- An inverted mapping entry counts only when its source column name is
  non-empty. An empty source is falsy, so a later column for the same field may
  still replace it.

## Model

| member | source | states |
|---|---|---|
| ImportRoute.FirstSource | app/api/transactions/import/route.ts:13-20 | Reference definition of first-wins: None iff no entry designates the field, otherwise the source of an entry that designates it with none before it |
| ImportRoute.TargetToSourceIsFirstWins | app/api/transactions/import/route.ts:13-20 | For every field, the `reduce` over the mapping entries yields exactly the first designating column in entry order (for field names that are not inherited object members; see Left out) |
| ImportRoute.Absorb | app/api/transactions/import/route.ts:14-18 | One `reduce` step: no target other than the entry's changes; a target that already holds a truthy source keeps it; otherwise a target other than "" and "ignore" receives the entry's source column |
| ImportRoute.BuildTargetToSource | app/api/transactions/import/route.ts:13-20 | Neither "" nor "ignore" is ever a key, and every recorded pair (source, target) is an entry of the mapping; first-wins is stated by TargetToSourceIsFirstWins |
| ImportRoute.IgnoreIsNeverASource | app/api/transactions/import/route.ts:15 | Neither "ignore" nor the empty target ever receives a source column |
| ImportRoute.RetargetUnrelatedColumn | app/api/transactions/import/route.ts:13-20 | Changing the target of a column that neither fed nor now feeds a field leaves that field's source unchanged |
| ImportRoute.MissingRequired | app/api/transactions/import/route.ts:47-48 | Exactly the required fields without a source, in the order date, amount, description |
| ImportRoute.ValidatedIffNothingMissing | app/api/transactions/import/route.ts:48-55 | All three required fields have a source iff the missing list is empty |
| ImportRoute.KeepAmountChars | app/api/transactions/import/route.ts:26 | The kept text consists only of digits, `.` and `-` |
| ImportRoute.CleanAmount | app/api/transactions/import/route.ts:26 | No contract of its own: what it keeps is stated by CleanAmountKeepsAmountChars |
| ImportRoute.CleanAmountKeepsAmountChars | app/api/transactions/import/route.ts:26 | The two regex replacements keep exactly the digits, dots and minus signs of the cell, in order |
| ImportRoute.ParseDecimalPrefix | app/api/transactions/import/route.ts:27-28 | `Number.parseFloat` on cleaned text: a leading digit always gives a number; an empty text, or one starting with anything but a digit, `-` or `.`, gives NaN; a negative number needs a leading minus. ParseDecimalOfDigits and ParseDecimalOfNegatedDigits give its value on whole numbers |
| ImportRoute.ParseAmount | app/api/transactions/import/route.ts:22-29 | null for an absent or empty cell; otherwise the decimal prefix of the cleaned text, null when it has none |
| ImportRoute.ParseAmountOfInteger | app/api/transactions/import/route.ts:22-29 | Any whole number written in digits, with or without a minus sign, parses back to itself |
| ImportRoute.ParseAmountDropsSymbolsAndSeparators | app/api/transactions/import/route.ts:26-28 | "$1,234.56" parses to 1234.56 |
| ImportRoute.ParseAmountKeepsSign | app/api/transactions/import/route.ts:26-28 | "-86.50" parses to -86.5: the sign is not made absolute |
| ImportRoute.ParseAmountRejectsText | app/api/transactions/import/route.ts:27-28 | "abc" and "N/A" give null, as NaN does |
| ImportRoute.ParseDate | app/api/transactions/import/route.ts:31-37 | null for an absent or empty cell, otherwise the result of the date parser |
| ImportRoute.AccountLabel | app/api/transactions/import/route.ts:57 | `accountName`, else `bankName`, else "Imported Account"; never empty |
| ImportRoute.TrimmedDescription | app/api/transactions/import/route.ts:86 | "" when the row lacks the description column, otherwise the trimmed cell, so it is empty or starts and ends with a non-blank character |
| ImportRoute.OptionalCell | app/api/transactions/import/route.ts:92-95 | Present iff the field has a truthy source and the row has that column; then the trimmed cell, empty iff the cell is all white space |
| ImportRoute.BuildDraft | app/api/transactions/import/route.ts:92-112 | The record keeps the parsed date, amount and description, every defaulted field is non-empty, and confidence is 100 |
| ImportRoute.NormalizeRow | app/api/transactions/import/route.ts:84-112 | A row survives iff its date parses, its amount parses and its trimmed description is non-empty; a survivor carries those values |
| ImportRoute.NormalizeRowDefaults | app/api/transactions/import/route.ts:92-112 | A truthy merchant, category, type or account cell is used as is. Otherwise merchant defaults to the description, category to "Uncategorized", type to "debit" iff the amount is negative (else "credit"), and account to the run label. The statement is the bank name or "Imported" |
| ImportRoute.Survivors | app/api/transactions/import/route.ts:83-113 | The loop's `continue` only drops rows: never more records than rows. SurvivorsAppend and SurvivorsOfOne say which rows survive |
| ImportRoute.SurvivorsAppend | app/api/transactions/import/route.ts:83-113 | Rows are judged independently: the survivors of a concatenation are the survivors of each part, in order |
| ImportRoute.ErrorMessage | app/api/transactions/import/route.ts:43-120 | Each error kind has its own text, in both directions: "rows and mapping are required", the "Missing required mappings: " prefix, and "No valid rows after applying the mapping." |
| ImportRoute.MissingMappingsMessage | app/api/transactions/import/route.ts:52 | The message lists the missing fields in order, joined by ", ": "Missing required mappings: date, amount" |
| ImportRoute.PlanImport | app/api/transactions/import/route.ts:43-55 | "rows and mapping are required" iff rows are missing or empty or the mapping is missing; a missing-mappings error names at least one field; success carries a non-empty list no longer than the rows |
| ImportRoute.MissingMappingsNameExactlyTheUnmappedFields | app/api/transactions/import/route.ts:47-55 | For non-empty rows, the import fails with the missing-mappings error iff some required field has no first-wins source, and the error names exactly those fields in order |
| ImportRoute.ImportSucceedsIffSomeRowSurvives | app/api/transactions/import/route.ts:115-120 | With a valid mapping, the import fails with "No valid rows" iff no row survives, and otherwise yields the survivors in row order |
| ImportWrite.SurvivorsStep | app/api/transactions/import/route.ts:83-113 | The survivors of one more row are those before it plus that row's record, if it has one |
| ImportWrite.Database.FindFirstAccount | app/api/transactions/import/route.ts:65-70 | None iff no account matches the name and the institution (an undefined institution matches any); otherwise the first match in table order |
| ImportWrite.Database.CreateAccount | app/api/transactions/import/route.ts:72-75 | Appends exactly one account with the next id, the name and the institution |
| ImportWrite.Database.GetAccountId | app/api/transactions/import/route.ts:60-79 | A cached name returns its cached id and creates nothing; otherwise the returned account matches the name, and an account is created only when none matched before; the cache gains that name |
| ImportWrite.Database.PushRecord | app/api/transactions/import/route.ts:97-112 | Pushing one survivor keeps the loop invariant: each record is its draft with the cached id of its account name |
| ImportWrite.Database.ResolveRow | app/api/transactions/import/route.ts:83-113 | One loop pass extends the survivors by the row's record, if any, and keeps the loop invariant |
| ImportWrite.Database.ResolveRows | app/api/transactions/import/route.ts:81-113 | After the loop, the records are the survivors in order. Each points at an account matching its name. Equal names share one id. Each new account is named by some record, never duplicates another new account, and had no match beforehand |
| ImportWrite.Database.Import | app/api/transactions/import/route.ts:39-127 | Reports the plan's outcome. On error nothing is written. On success one append adds the survivors in order, each linked to a matching account, with at most one new account per distinct name, created only when none matched |
| FileParsers.NormalizeHeader | lib/import/fileParsers.ts:11-14 | Never empty: the trimmed header, or "Column i+1" when the header is blank |
| Text.Trim | lib/import/fileParsers.ts:12 | `trim()`: the text is white space, then the result, then white space; the result neither starts nor ends with white space, is empty iff the text is all white space, and is the text itself when that was already so |
| Text.NatToStringValue | lib/import/fileParsers.ts:13 | The decimal numeral printed in `Column ${index + 1}` reads back as the number |
| FileParsers.PlaceholdersDistinct | lib/import/fileParsers.ts:13 | Blank headers at different positions receive different names |
| FileParsers.HeaderText | lib/import/fileParsers.ts:53 | A header cell's text; a `null` header cell is "" in a CSV table but "null" in a workbook, where `String(null)` is applied. An `undefined` workbook header would read "undefined"; with `defval: ""` the spreadsheet library hands over neither, so the model takes None as `null` |
| FileParsers.CellText | lib/import/fileParsers.ts:27-30 | The trimmed cell text, or "" for a null cell or one past the end of a short row |
| FileParsers.FromEntries | lib/import/fileParsers.ts:31 | No contract of its own: its keys and values are stated by FromEntriesKeys and FromEntriesValue |
| FileParsers.FromEntriesKeys | lib/import/fileParsers.ts:31 | The object has exactly the entry keys |
| FileParsers.FromEntriesValue | lib/import/fileParsers.ts:31 | Under each key, the object holds the value paired with the key's last occurrence |
| FileParsers.BuildRow | lib/import/fileParsers.ts:26-32 | No contract of its own: what a row holds is stated by BuildRowHasEveryColumn |
| FileParsers.BuildRowHasEveryColumn | lib/import/fileParsers.ts:26-32 | A row has exactly the columns as keys; under each column it holds the cell at that column name's last position |
| FileParsers.Tabulate | lib/import/fileParsers.ts:24-25 | An empty table gives no columns and no rows; otherwise one column per header cell, each the normalised header, and one row per data line |
| FileParsers.TabulatedRowsHaveEveryColumn | lib/import/fileParsers.ts:52-61 | Every output row has every column, holding the trimmed cell of the data line one past the row's index |
| FileParsers.LastSegment | lib/import/fileParsers.ts:17 | The suffix after the last dot, which contains no dot; the whole name when there is no dot |
| FileParsers.Kind | lib/import/fileParsers.ts:17-37 | CSV iff the lowercased last extension is "csv"; workbook iff it is "xlsx" or "xls" |
| FileParsers.ParseFileToRows | lib/import/fileParsers.ts:16-67 | CSV goes through the CSV table; a workbook goes through its first sheet, or gives an empty result without one; any other extension gives an empty result |
| FileParsers.LastSegmentAfterDot | lib/import/fileParsers.ts:17 | For any stem, the extension after the final dot is what `split(".").pop()` returns |
| FileParsers.UpperCaseCsvExtension | lib/import/fileParsers.ts:17-19 | "bank.2024.CSV" takes the CSV branch |
| FileParsers.InnerExtensionIgnored | lib/import/fileParsers.ts:17-66 | "export.xlsx.pdf" is unsupported and gives an empty result |
| ImportMappings.MappingStore.Find | app/api/import-mappings/route.ts:12-14 | A record exists iff the bank has one, and it carries that bank's mapping |
| ImportMappings.MappingStore.Get | app/api/import-mappings/route.ts:4-17 | A missing or empty bank name gives "bankName is required"; otherwise 200 with the bank's record, or null when it has none |
| ImportMappings.MappingStore.Post | app/api/import-mappings/route.ts:19-35 | A missing or empty bank name or a missing mapping gives the 400 error and leaves the store unchanged; otherwise the bank's entry is created or overwritten and no other bank changes |
| ImportMappings.SaveTwiceThenRead | app/api/import-mappings/route.ts:28-32 | Two saves for one bank leave one entry holding the second mapping, which GET returns; GET for another bank answers as before |
| TransactionsQuery.MonthKey | lib/transactions.ts:15 | No month filter for an absent or empty month; a month name in `monthMap` becomes its prefix; any other text is its own prefix |
| TransactionsQuery.NormalizedSearch | lib/transactions.ts:16 | The search lowercased and trimmed, absent when absent |
| TransactionsQuery.Matches | lib/transactions.ts:18-37 | No contract of its own: the filter predicate, characterised by GetTransactions and the lemmas below |
| TransactionsQuery.GetTransactions | lib/transactions.ts:14-40 | A transaction is in the result iff it is in the list and passes all three filters; each passing transaction appears as often as in the list and every other one not at all; the result keeps the list's order |
| TransactionsQuery.NoFiltersMatchEverything | lib/transactions.ts:18-37 | With no filter set, every transaction passes |
| TransactionsQuery.NoFiltersKeepsEverything | lib/transactions.ts:18-37 | With no filter set, the whole list comes back unchanged |
| TransactionsQuery.SameVerdictSameResult | lib/transactions.ts:18-37 | Two filter settings that accept the same transactions give the same list |
| TransactionsQuery.BlankSearchIsNoSearch | lib/transactions.ts:16-34 | A search of only white space filters nothing |
| TransactionsQuery.AllAccountsIsNoAccountFilter | lib/transactions.ts:23-27 | "All Accounts" is the same as no account filter |
| TransactionsQuery.MonthNameSelectsItsPrefix | lib/transactions.ts:10-21 | "January 2024" returns only transactions dated "2024-01…" |
| TransactionsTable.Apply | components/transactions/TransactionsTable.tsx:61 | `{ ...item, ...patch }`: each field the patch carries replaces the row's, and every other field is kept |
| TransactionsTable.UpdateRows | components/transactions/TransactionsTable.tsx:59-63 | Same length; rows with the id get the patch, and all other rows are untouched |
| TransactionsTable.UpdateRowsIdempotent | components/transactions/TransactionsTable.tsx:59-63 | Applying a patch that keeps the id twice is the same as applying it once |
| TransactionsTable.UpdateUnknownIdIsNoOp | components/transactions/TransactionsTable.tsx:59-63 | Patching an id that no row carries changes nothing |
| TransactionsTable.Accounts | components/transactions/TransactionsTable.tsx:52 | One account name per row, in row order |
| Seqs.Dedup | components/transactions/TransactionsTable.tsx:52 | `Array.from(new Set(...))`: the same elements, no repeats |
| Seqs.DedupInFirstOccurrenceOrder | components/transactions/TransactionsTable.tsx:52 | The de-duplicated list is in order of first occurrence |
| Seqs.RemoveAll | components/transactions/TransactionsTable.tsx:52 | `.filter(Boolean)` on strings: exactly the elements other than "" remain |
| Seqs.RemoveAllKeepsFirstOccurrenceOrder | components/transactions/TransactionsTable.tsx:52 | Dropping a value keeps the first-occurrence order |
| TransactionsTable.InitialAccounts | components/transactions/TransactionsTable.tsx:51-54 | Distinct, non-empty and without the empty name. When some row names an account, exactly the non-empty names in the data; otherwise Checking, Savings, Credit Card |
| TransactionsTable.InitialAccountsInDataOrder | components/transactions/TransactionsTable.tsx:52 | The initial accounts are listed in the order they first appear in the data |
| TransactionsTable.AddAccount | components/transactions/TransactionsTable.tsx:81 | Extends the list; the name is present afterwards; a name already present changes nothing; distinctness is preserved |
| TransactionsTable.TableState.constructor | components/transactions/TransactionsTable.tsx:49-57 | Rows are the data, accounts are the initial accounts, and the dialog is closed with no name and no row |
| TransactionsTable.TableState.UpdateRow | components/transactions/TransactionsTable.tsx:59-63 | Rows become the patched rows; nothing else changes |
| TransactionsTable.TableState.OpenCreateAccountDialog | components/transactions/TransactionsTable.tsx:64-68 | Remembers the row, clears the name and opens the dialog |
| TransactionsTable.TableState.HandleDialogOpenChange | components/transactions/TransactionsTable.tsx:69-75 | Sets the dialog flag; closing also clears the name and the active row |
| TransactionsTable.TableState.SetNewAccountName | components/transactions/TransactionsTable.tsx:333 | Only the typed name changes |
| TransactionsTable.TableState.HandleSaveAccount | components/transactions/TransactionsTable.tsx:76-86 | A blank name changes nothing. Otherwise the trimmed name joins the accounts if absent, becomes the active row's account if there is an active row, and the dialog closes. The account list stays distinct and without the empty name |
| TransactionsTable.CreateAccountForRow | components/transactions/TransactionsTable.tsx:64-86 | Open, type and save: the chosen row carries the trimmed name, other rows are unchanged, the name is among the accounts and the dialog is closed |
| Analytics.ParsePreset | lib/analytics.ts:156-164 | A whitelisted name selects its preset; anything else, or nothing, selects last-30 |
| Analytics.ParsePresetName | lib/analytics.ts:156-164 | Every preset survives the round trip through its URL name |
| Analytics.ParseCurrency | lib/analytics.ts:166-167 | USD iff the parameter is exactly "USD", else MXN |
| Analytics.PresetConfig | lib/analytics.ts:78-83 | Every fixed preset covers a positive number of days |
| Analytics.PresetRange | lib/analytics.ts:128-133 | Ends today, covers exactly the preset's number of days, and uses its granularity |
| Analytics.Span | lib/analytics.ts:136 | At least 1; the inclusive day count of an ordered range |
| Analytics.CustomGranularity | lib/analytics.ts:135-140 | Month iff more than 120 days; week iff 46 to 120 days; day iff at most 45 days |
| Analytics.CustomGranularityMonotone | lib/analytics.ts:135-140 | A longer custom range is never bucketed more finely than a shorter one |
| Analytics.ParseDateParam | lib/analytics.ts:103-108 | No date for an absent or empty parameter; otherwise the parsed day |
| Analytics.ResolveFilters | lib/analytics.ts:152-198 | The range is always ordered. A custom preset with both ends uses those two days, swapped if reversed, bucketed by length. Otherwise the preset's range is used, or last-30 for an incomplete custom range, which still reports itself as custom |
| Analytics.PreviousPeriod | lib/analytics.ts:272-274 | Ends the day before the start and covers as many days as the current range |
| Analytics.PreviousPeriodAdjacent | lib/analytics.ts:272-274 | For an ordered range, the previous period is adjacent, disjoint and of equal length |
| Analytics.PreviousOfPresetRange | lib/analytics.ts:272-274 | The period before a preset range repeats the preset's day count immediately before it |
| Analytics.CalculateDelta | lib/analytics.ts:255-256 | 0 when the previous value is 0; otherwise delta × previous = (current − previous) × 100 |
| Analytics.DeltaSignFollowsChange | lib/analytics.ts:255-256 | Against a positive baseline, the delta is positive iff the value grew and zero iff it stayed equal |
| Analytics.TimelineDays | lib/analytics.ts:200-243 | The `while (cursor <= end)` loop visits exactly the cursor positions of the specification sequence |
| Analytics.Advance | lib/analytics.ts:236-240 | A step of the cursor moves it strictly forward whenever adding a month does |
| Analytics.Cursors | lib/analytics.ts:212-240 | Points exist iff start ≤ end, and the first is at the start; CursorsAscendWithinRange states the rest |
| Analytics.CursorsAscendWithinRange | lib/analytics.ts:209-240 | Points exist iff start ≤ end, the first is at the start, all lie within the range, and they strictly ascend |
| Analytics.DailyPointCount | lib/analytics.ts:212-232 | Daily buckets give one point per day of the range |
| Analytics.WeeklyPointCount | lib/analytics.ts:212-234 | Weekly buckets give one point per started week |
| DateLabel.Classify | lib/date.ts:39-49 | Today iff the same day, yesterday iff the day before, last week iff 2 to 6 days ago, other otherwise (the future included) |
| DateLabel.FirstDot | lib/date.ts:28 | The position of the first dot, or the length when there is none |
| DateLabel.RemoveFirstDot | lib/date.ts:24-28 | `.replace(".", "")`: the text is unchanged without a dot; otherwise only its first dot is removed |
| DateLabel.MonthDayLabel | lib/date.ts:24-28 | The month-day label is never longer than the formatted text, and is just its lowercase form when it holds no dot |
| DateLabel.DayLabel | lib/date.ts:41-49 | "Hoy", "Ayer", the lowercased weekday, or the month-day label, according to the day's class |
| DateLabel.FormatTransactionDate | lib/date.ts:30-53 | An unparsable input comes back as is; otherwise the day label, " a las ", and the time |
| DateLabel.TodayAndYesterdayDiffer | lib/date.ts:43-46 | A date today reads "Hoy" and one yesterday reads "Ayer" |
| DateLabel.DistantDatesShowMonthDay | lib/date.ts:39-49 | A date a week ago or more, or in the future, shows the day and month |

## Left out

- The CSV and spreadsheet libraries (`papaparse` and `xlsx`) are not modelled. The model starts from their array-of-arrays output: the CSV table after empty lines are skipped, and the first sheet (or its absence).
- Reading the uploaded `File` (`file.text()`, `file.arrayBuffer()`) is I/O and is left out.
- The Prisma client is modelled as in-memory tables. Account ids are table positions, `findFirst` returns the first match in table order, and a write cannot fail. Concurrent requests and the asynchronous interleaving of `await` are not modelled.
- Any column of the importMapping record other than `bankName` and `mappingJson` is not modelled; a record is its bank name and mapping.
- ImportRoute.ParseAmount: computes the exact decimal value, not its rounding to a binary64 float.
- `new Date(...)`, `Date.now`, `Intl.DateTimeFormat` and `setMonth` are function parameters. Their behaviour, including time zones and daylight-saving transitions, is not modelled.
- DateLabel.Classify: counts days by day number. The source instead looks at the calendar day of `todayStart − 24h` (lib/date.ts:45) and takes `Math.floor` of the millisecond difference over 24 hours (lib/date.ts:39). Both differ only across a daylight-saving change: a date seven local days back across a spring change has a 167-hour difference, so `diffInDays` is 6 and the source shows the weekday, where Classify gives Other and the model shows the month-day.
- Analytics.CustomGranularity: counts days exactly, without `Math.round` over milliseconds, which matters only across daylight-saving changes.
- `toLowerCase` is modelled on ASCII letters only; Unicode case mapping is left out.
- `monthMap` is modelled as a dictionary with its single entry. Look-ups of inherited object keys such as "constructor" are not modelled. Nor are the import route's `row[column]` reads of inherited keys (app/api/transactions/import/route.ts:84-86): a row is a dictionary in the model. So when the amount column is named "toString" and a row lacks it, the source hands a function to `parseAmount`, whose `.replace` throws and ends the request with a 500, while NormalizeRow just drops the row. The same holds for the accumulator read `!acc[target]` in `buildTargetToSource` (app/api/transactions/import/route.ts:15): `acc` starts as `{}`, so a target naming an inherited member is already truthy and never recorded. With the mapping `{"Col": "constructor"}` the source leaves `acc` empty, while FirstSource and BuildTargetToSource record "Col" for "constructor". The import reads only its seven fixed field names, none of them inherited, so its outcome is unaffected.
- `Object.entries` lists integer-like keys first in JavaScript. The model takes the mapping's entries in the given order, so it matches when no column name looks like an array index.
- The mock data behind `getTransactions` is a parameter instead of the fixed list.
- The floating-point parts of the analytics are left out because they only shape the demo figures: the synthetic income and expense of each timeline point, `calculateTotals`, savings rates, spending weights, and currency or percentage formatting.
- The timeline point labels and the range label of `useAnalyticsFilters` are `Intl` output and are left out.
- UI rendering of the table is left out: sorting, virtualisation, the column definitions and the dialogs' markup. So is the mapping dialog's client-side gate.
