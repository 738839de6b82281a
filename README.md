# Artha finance tracker — a verified model of its core

Artha is a personal-finance tracker: a Next.js application that stores
transactions (income or expense, with an amount, a date, a description and a
category) and monthly budgets per category in MongoDB, and shows analytics and
budget progress over them. This project models its logic in Dafny and proves
what that logic promises:

- the **analytics aggregator** (`GET /api/analytics`):
  - six monthly expense buckets ending at the current month;
  - the per-category breakdown with rounded percentages, ordered by amount;
  - the five latest transactions;
  - the totals.
- the **budget progress** computations:
  - of the overview card: spent, remaining, percentage, three-tier status, totals and the overall status;
  - of the budget manager: the progress table filled budget by budget, the status lookup and the progress bar.
- the **validators and forms**:
  - the server-side `validateTransaction`;
  - the transaction form's two checks and defaults;
  - the budget form's amount check and its choice lists;
  - which HTTP method each manager saves with.
- the **record stores** of the transactions and budgets routes. Each is a class over an in-memory table with an id counter, in place of the MongoDB collection. Create, update and delete are methods whose contracts give the response and the whole new table on every path.

Throughout the model:

- The current date and the server clock are parameters (`now`, `today`).
- Dates are already-parsed (year, month 0-11, day) triples.
- Amounts are real numbers.
- A JavaScript `Map` is an association list in insertion order.

The modules, in dependency order:

| module | models |
|---|---|
| `Types` | the records (src/types/index.ts), dates, HTTP outcomes |
| `Text` | `trim`, `parseInt`, and decimal numerals |
| `FinanceUtils` | src/lib/utils-finance.ts |
| `Seqs` | `filter`, and `reduce` as a sum |
| `Sorting` | the stable descending sort, functional and in place on an array |
| `Amounts` | amount and date accessors |
| `Analytics` | src/app/api/analytics/route.ts |
| `BudgetOverview` | src/components/BudgetOverview.tsx |
| `BudgetManager` | src/components/BudgetManager.tsx |
| `TransactionManager` | src/components/TransactionManager.tsx |
| `Tables` | the keyed in-memory table |
| `TransactionsRoute` | src/app/api/transactions/route.ts |
| `BudgetsRoute` | src/app/api/budgets/route.ts |

## Model

| member | source | states |
|---|---|---|
| Types.TimeOfOrdersDates | src/app/api/analytics/route.ts:86 | the sort key of a date grows exactly with calendar order (year, then month, then day) |
| Types.ParseType | src/types/index.ts:9 | a type string is accepted exactly when it is "income" or "expense", and it names the type it reads as |
| Types.TypeNameRoundTrip | src/types/index.ts:9 | each transaction type is written as "income" or "expense" and reads back as itself |
| Types.CategoriesVocabulary | src/types/index.ts:42-56 | the category list has 13 distinct entries ending in "Other" |
| Types.CategoryOrOther | src/app/api/analytics/route.ts:69 | `category \|\| "Other"` is never empty; it keeps a non-empty category and gives "Other" for a missing or empty one |
| Text.ParseInt | src/app/api/budgets/route.ts:14 | `parseInt` yields a number exactly when, after the skipped white space and an optional sign, hexadecimal digits follow a "0x"/"0X" prefix or, without that prefix, decimal digits follow |
| Text.HexPrefixExample | src/app/api/budgets/route.ts:14 | "0x7E8" reads as 2024 and "-0X1a" as -26 |
| Text.HexPrefixWithoutDigits | src/app/api/budgets/route.ts:14 | "0x" and "0xg" read as NaN, and "0y" as 0 |
| Text.ParseHexDigits | src/app/api/budgets/route.ts:14 | for every non-empty run of hexadecimal digits after "0x" or "0X", followed by any text that does not start with a hexadecimal digit, `parseInt` gives the base-16 value of the run, and its negation when a minus sign comes first |
| Text.ParseIntRoundTrip | src/app/api/budgets/route.ts:14 | `parseInt` reads back the decimal text of every integer |
| Text.IntToStringInjective | src/lib/utils-finance.ts:43 | distinct integers print differently |
| Text.NatToStringInjective | src/components/BudgetManager.tsx:373 | distinct ids print to distinct keys |
| FinanceUtils.MonthTables | src/lib/utils-finance.ts:11-24 | both month tables hold twelve distinct, non-empty names without spaces |
| FinanceUtils.MonthLabelRoundTrip | src/app/api/analytics/route.ts:25-39 | a "name year" label parses back to its exact (year, month) |
| FinanceUtils.GetMonthNameRoundTrip | src/lib/utils-finance.ts:28-44 | `getMonthName` names exactly one (year, month) |
| FinanceUtils.FormatDateRoundTrip | src/lib/utils-finance.ts:9-26 | a `formatDate` label parses back to its date |
| FinanceUtils.FormatDateInjective | src/lib/utils-finance.ts:9-26 | distinct dates get distinct `formatDate` labels |
| FinanceUtils.MessagesDistinct | src/lib/utils-finance.ts:54-73 | the five validation messages are pairwise different, so a message identifies its check |
| FinanceUtils.ValidationErrorsReported | src/lib/utils-finance.ts:54-73 | each message is reported exactly when its check fails; "Date is required" and "Invalid date format" never appear together |
| FinanceUtils.ValidationErrorsOrdered | src/lib/utils-finance.ts:52-78 | messages come in the order amount, date, description, type, at most one per field; the list is empty exactly when the input is acceptable |
| FinanceUtils.ValidateTransaction | src/lib/utils-finance.ts:46-79 | the pushes build exactly the failing checks in order; `isValid` holds exactly when the input is acceptable |
| Seqs.Filter | src/app/api/analytics/route.ts:59-61 | every kept element is an input element satisfying the predicate, every such input element is kept, and the result is no longer than the input |
| Seqs.FilterAppend | src/app/api/analytics/route.ts:41-49 | filtering distributes over concatenation |
| Seqs.SumByAppend | src/app/api/analytics/route.ts:62-65 | a sum over a concatenation is the sum of the parts |
| Seqs.FilterAgreeing | src/components/BudgetOverview.tsx:73-79 | predicates agreeing on every element select the same elements |
| Seqs.SumByPermutation | src/app/api/analytics/route.ts:95-97 | a sum does not depend on the order of its terms |
| Seqs.FilterPermutation | src/app/api/analytics/route.ts:86-97 | filtering a permutation gives a permutation of the filtered elements |
| Seqs.DistinctPermutation | src/app/api/analytics/route.ts:82 | a reordering of a list without repeats has no repeats |
| Sorting.SortDescSortedPermutation | src/app/api/analytics/route.ts:82 | the sort's result is non-increasing in the key and a permutation of its input |
| Sorting.SortDescStable | src/app/api/analytics/route.ts:82 | elements with equal keys keep their relative order (a stable sort) |
| Sorting.SortInPlace | src/app/api/analytics/route.ts:86 | the in-place insertion sort leaves the array equal to the functional stable sort of its old contents |
| Analytics.MonthsBack | src/app/api/analytics/route.ts:18-22 | `new Date(y, m - i, 1)` lands exactly `i` calendar months earlier, rolling across years |
| Analytics.Window | src/app/api/analytics/route.ts:17-22 | six months, each one after the last, ending at the current month |
| Analytics.WindowShape | src/app/api/analytics/route.ts:14-22 | the last month is the current one, the months are consecutive and all different |
| Analytics.WindowAcrossNewYear | src/app/api/analytics/route.ts:18-22 | from February 2024 the window runs from September 2023 to February 2024 |
| Analytics.Series | src/app/api/analytics/route.ts:41-55 | one bucket per month, in the months' order |
| Analytics.MonthlyExpenseSeries | src/app/api/analytics/route.ts:14-56 | the loop pushes exactly six buckets, oldest first, each the expense total of its window month |
| Analytics.SeriesLabels | src/app/api/analytics/route.ts:39 | each bucket label parses back to its month, so the six labels are distinct |
| Analytics.BucketStep | src/app/api/analytics/route.ts:41-50 | one more transaction changes a bucket only if it is an expense of that month, by its amount |
| Analytics.BucketEmpty | src/app/api/analytics/route.ts:41-50 | a month without expenses has a zero bucket; income never counts |
| Analytics.SeriesWithinTotal | src/app/api/analytics/route.ts:41-65 | with non-negative amounts the buckets add up to at most the total expenses |
| Analytics.SeriesCoversTotal | src/app/api/analytics/route.ts:41-65 | whatever the amounts, the buckets add up to exactly the total expenses when every expense falls in the window |
| Analytics.SeriesOfNothing | src/app/api/analytics/route.ts:41-50 | with no transactions there is one bucket per month, every bucket total is 0, and so is their sum |
| Analytics.SetKeys | src/app/api/analytics/route.ts:70 | `Map.set` keeps the key order and appends a new key at the end |
| Analytics.SetLookup | src/app/api/analytics/route.ts:70 | after `set`, `get` returns the new value for that key and the old one for others |
| Analytics.BuildCategoryMap | src/app/api/analytics/route.ts:67-71 | the `forEach` builds exactly the grouping function's map |
| Analytics.GroupKeys | src/app/api/analytics/route.ts:67-71 | one entry per category, none twice; a category has an entry iff some expense carries it |
| Analytics.GroupLookup | src/app/api/analytics/route.ts:69-70 | a category's value is the sum of the amounts of its expenses |
| Analytics.GroupTotal | src/app/api/analytics/route.ts:62-71 | the map's values add up to the total expenses |
| Analytics.GroupFirstEncounter | src/app/api/analytics/route.ts:67-75 | entries stand in the order their categories were first met |
| Analytics.Round | src/app/api/analytics/route.ts:80 | `Math.round` lands within half of its argument, halves rounded up |
| Analytics.PercentageBounds | src/app/api/analytics/route.ts:79-80 | the percentage is 0 without positive expenses, is within half a point of the exact share, and lies in 0..100 for a share of the total |
| Analytics.CategoryBreakdown | src/app/api/analytics/route.ts:59-82 | the method returns the sorted breakdown and the total of the expense amounts |
| Analytics.BreakdownOrder | src/app/api/analytics/route.ts:73-82 | rows are non-increasing by amount; equal amounts keep the order in which their categories were first met |
| Analytics.BreakdownCategories | src/app/api/analytics/route.ts:67-82 | one row per expense category ("Other" for a missing one), none twice |
| Analytics.BreakdownAmounts | src/app/api/analytics/route.ts:62-81 | each row holds its category's sum and that sum's rounded percentage; the rows add up to the total expenses |
| Analytics.PercentageDrift | src/app/api/analytics/route.ts:79-80 | the rounded percentages drift from the exact shares by at most half a point per row |
| Analytics.BreakdownPercentagesNear100 | src/app/api/analytics/route.ts:79-82 | with positive expenses the percentages add up to 100 within half a point per row; no expenses, no rows |
| Analytics.RecentTransactions | src/app/api/analytics/route.ts:85-87 | the array is left sorted latest first, and the result is its first `min(5, n)` elements |
| Analytics.PrefixIsLatest | src/app/api/analytics/route.ts:86-87 | in a list sorted latest first, everything before a cut is no earlier than anything after it |
| Analytics.RecentAreLatest | src/app/api/analytics/route.ts:85-87 | the slice has `min(5, n)` of the input's transactions, latest first; none left out is later than one kept |
| Analytics.ComputeAnalytics | src/app/api/analytics/route.ts:5-98 | the whole report: six buckets, the breakdown, the latest five, the count, and the expense and income totals; the input array ends up sorted |
| Analytics.NoTransactions | src/app/api/analytics/route.ts:41-97 | with no transactions every figure is zero and the breakdown is empty |
| BudgetOverview.StatusOf | src/components/BudgetOverview.tsx:89-91 | danger iff at least 100 per cent, warning iff 80 up to 100, success iff below 80 |
| BudgetOverview.ClampAtZero | src/components/BudgetOverview.tsx:85 | `Math.max(0, x)` is non-negative, at least `x`, and is either `x` or 0 |
| BudgetOverview.Overview | src/components/BudgetOverview.tsx:72-101 | one row per budget, in the budgets' order, with its category and amount |
| BudgetOverview.RowConsistency | src/components/BudgetOverview.tsx:81-100 | for a positive budget: the percentage is the spent share; danger iff nothing remains; warning iff 80 up to 100 per cent is spent; remaining plus spent covers the budget |
| BudgetOverview.RowOfEmptyBudget | src/components/BudgetOverview.tsx:86-91 | a budget that is not positive shows 0 per cent and success |
| BudgetOverview.SpentIgnoresBudgetMonth | src/components/BudgetOverview.tsx:73-79 | spending depends on the budget only through its category and year, and on the date only through the current month; the budget's own month is not consulted |
| BudgetOverview.OverspentExample | src/components/BudgetOverview.tsx:85-105 | 150 spent against 120 budgeted: 0 remaining, 125 per cent, danger, and a Remaining card of -30 |
| BudgetOverview.RemainingCardBelowRows | src/components/BudgetOverview.tsx:104-105 | the unclamped Remaining card never exceeds the rows' remaining amounts together, is negative iff more was spent than budgeted, and no row's remaining is negative |
| BudgetOverview.OverallLabel | src/components/BudgetOverview.tsx:243-247 | the caption follows the same three tiers as a row's status |
| BudgetOverview.NothingBudgeted | src/components/BudgetOverview.tsx:169-170 | with nothing budgeted the overall figure is 0 per cent and "On track" |
| BudgetOverview.ChartName | src/components/BudgetOverview.tsx:135-139 | names of up to 10 characters are kept; longer ones become their first 10 characters and "..." |
| BudgetOverview.PieColor | src/components/BudgetOverview.tsx:148 | each slice gets one of the five colours |
| BudgetOverview.PieColorsCycle | src/components/BudgetOverview.tsx:34 | colours repeat every five slices, and the first five differ |
| BudgetManager.ProgressKey | src/components/BudgetManager.tsx:373 | the key is empty exactly for a budget without an id |
| BudgetManager.ProgressKeyInjective | src/components/BudgetManager.tsx:373 | two budgets share a key exactly when they have the same id or both lack one |
| BudgetManager.CalculateBudgetProgress | src/components/BudgetManager.tsx:344-381 | the loop fills the table exactly as the per-budget specification does |
| BudgetManager.ProgressTableKeys | src/components/BudgetManager.tsx:351-375 | the table has an entry exactly for the keys of budgets whose fetch succeeded |
| BudgetManager.ProgressTableLastWins | src/components/BudgetManager.tsx:358-373 | a budget's entry is its own spent and percentage unless a later budget with the same key overwrites it |
| BudgetManager.GetBudgetStatus | src/components/BudgetManager.tsx:217-225 | without an entry, success at 0 per cent; otherwise the entry's percentage and the overview's tier for it |
| BudgetManager.ListAgreesWithOverview | src/components/BudgetManager.tsx:217-225 | with distinct ids and one transaction list, the list shows each budget's overview percentage and status |
| BudgetManager.FailedFetchShowsNothing | src/components/BudgetManager.tsx:354 | a budget whose fetch failed, with no other budget filling its key, shows success at 0 per cent |
| BudgetManager.ProgressBarWidth | src/components/BudgetManager.tsx:270 | the bar is at most 100 and at most the percentage, and equals one of them |
| BudgetManager.Overspend | src/components/BudgetManager.tsx:273-277 | the excess line appears exactly at 100 per cent or more |
| BudgetManager.OverspendIsExcess | src/components/BudgetManager.tsx:273-277 | an excess is shown exactly for a positive budget that was spent in full, and is the non-negative amount spent beyond it |
| BudgetManager.InitialBudgetFields | src/components/BudgetManager.tsx:43-48 | a new budget opens on "Food & Dining", no amount, this month and this year; an edited one on its own amount and on its own category, month and year where set, falling back to "Food & Dining", this month and this year where empty |
| BudgetManager.SubmitBudgetForm | src/components/BudgetManager.tsx:76-88 | refused with only "Amount must be greater than 0" iff the amount is not positive; otherwise the fields go on unchanged |
| BudgetManager.YearChoices | src/components/BudgetManager.tsx:68 | five consecutive years starting two before the current one |
| BudgetManager.YearChoicesSpan | src/components/BudgetManager.tsx:68 | a year is offered iff it is within two of the current one |
| BudgetManager.MonthChoices | src/components/BudgetManager.tsx:53-66 | the twelve month names are distinct, and the default month is one of them |
| BudgetManager.SaveBudgetRequest | src/components/BudgetManager.tsx:383-395 | PUT with the edited budget's id iff editing, otherwise POST without an id; the data is sent unchanged |
| TransactionManager.InitialTransactionFields | src/components/TransactionManager.tsx:39-45 | a new transaction opens as an expense in "Other" dated today; an edited one opens on its own fields |
| TransactionManager.HandleSubmit | src/components/TransactionManager.tsx:50-74 | refused iff the amount is not positive or the description is blank; the amount error wins; each refusal has one message; otherwise the fields go on with the amount parsed |
| TransactionManager.SaveTransactionRequest | src/components/TransactionManager.tsx:285-299 | PUT with the edited transaction's id iff editing, otherwise POST without an id; the data is sent unchanged |
| TransactionManager.SubmittedIsAcceptable | src/components/TransactionManager.tsx:56-73 | whatever the form submits passes the server's validation with no errors |
| TransactionManager.RejectionAgreesWithServer | src/components/TransactionManager.tsx:61-71 | the form's single message is the first one the server reports for the same fields |
| TransactionManager.ResubmitUnchanged | src/components/TransactionManager.tsx:39-73 | submitting an edited transaction unchanged sends back its own fields, with "Other" for a missing category |
| Tables.IndexOfId | src/app/api/transactions/route.ts:98-100 | finds the first record with the id, or reports that no record has it |
| Tables.KeyedIndex | src/app/api/transactions/route.ts:136-138 | in a keyed table an id names exactly one record |
| Tables.KeyedAppend | src/app/api/transactions/route.ts:50-52 | appending a record with the next id keeps ids present, below the counter, and distinct |
| Tables.KeyedReplace | src/app/api/transactions/route.ts:98-100 | replacing a record by one with the same id keeps the table keyed |
| Tables.KeyedRemove | src/app/api/transactions/route.ts:136-138 | removing a record keeps the table keyed and leaves no record with its id |
| TransactionsRoute.StoredRecord | src/app/api/transactions/route.ts:40-48 | the stored record has the parsed positive amount, the sent date, description and type, and the sent non-empty category or "Other" |
| TransactionsRoute.TransactionStore.Get | src/app/api/transactions/route.ts:7-16 | all records, latest date first, as a permutation of the table |
| TransactionsRoute.TransactionStore.Post | src/app/api/transactions/route.ts:26-58 | a failing body gets 400 with the validator's messages and changes nothing; otherwise exactly one record with a fresh id and both timestamps is appended and returned (201) |
| TransactionsRoute.TransactionStore.Put | src/app/api/transactions/route.ts:68-113 | no id: 400 before any validation; a failing body: 400; an unknown id: 404, no change; otherwise only that record is rewritten, keeping its id and createdAt, with updatedAt set |
| TransactionsRoute.TransactionStore.Delete | src/app/api/transactions/route.ts:123-147 | no id: 400; an unknown id: 404, no change; otherwise exactly that record is removed |
| TransactionsRoute.PutMatchesPost | src/app/api/transactions/route.ts:40-48 | an update writes what a create of the same body would store, except for the kept createdAt |
| TransactionsRoute.PostThenDelete | src/app/api/transactions/route.ts:26-147 | creating one transaction in an empty store gives the stored record of the body under the first id; the listing is exactly that record; deleting it by its id empties the store |
| BudgetsRoute.Query | src/app/api/budgets/route.ts:9-17 | with month and year both given, exactly the budgets of that month whose year `parseInt` reads; otherwise every budget |
| BudgetsRoute.ViewQuery | src/components/BudgetOverview.tsx:56-58 | the views' query for the current month name and year returns exactly the budgets of that month and year |
| BudgetsRoute.NewBudget | src/app/api/budgets/route.ts:48-56 | the body's category, month, year and amount, the new id, and both timestamps |
| BudgetsRoute.Patched | src/app/api/budgets/route.ts:79-88 | each supplied field overwrites, the others are kept, the id is kept and updatedAt is set |
| BudgetsRoute.EmptyPatch | src/app/api/budgets/route.ts:83-86 | a patch with no fields only refreshes updatedAt |
| BudgetsRoute.EditFormPatch | src/components/BudgetManager.tsx:394 | saving the edit form gives the budget the form's fields and keeps its id and createdAt |
| BudgetsRoute.BudgetStore.Get | src/app/api/budgets/route.ts:5-19 | the response is the filtered table |
| BudgetsRoute.BudgetStore.Post | src/app/api/budgets/route.ts:29-56 | an existing (category, month, year) gets 400 and changes nothing; otherwise exactly the new budget is appended and returned; at most one budget per period stays at most one |
| BudgetsRoute.BudgetStore.Put | src/app/api/budgets/route.ts:66-94 | no id: 400; an unknown id: 404, no change; otherwise only that budget gets the patch |
| BudgetsRoute.BudgetStore.Delete | src/app/api/budgets/route.ts:104-126 | no id: 400; an unknown id: 404, no change; otherwise exactly that budget is removed |
| BudgetsRoute.PutCanDuplicatePeriod | src/app/api/budgets/route.ts:79-88 | an update can give two budgets the same category, month and year, which a create refuses |
| BudgetsRoute.PostTwice | src/app/api/budgets/route.ts:34-56 | a second create of the same budget is refused and the table keeps the first only |

## Left out

- src/lib/mongodb.ts and the driver calls are not part of this model. The stores are in-memory tables:
  - an ObjectId is a natural number handed out by a counter;
  - a malformed id string, which the driver would reject, is not modelled.
- The 500 responses of every route's `catch` are not modelled, because they come from I/O failures.
- JavaScript date parsing and time zones are not modelled. A date is a (year, month, day) triple, and an invalid date string is the `UnparseableDate` case of the input.
- `toISOString` and the local-time getters are represented by `today` and `now`.
- InitialBudgetFields: the runtime's default locale is taken to be English, so the long month name that `toLocaleString("default", { month: "long" })` gives is `MONTH_NAMES[month]`; under another locale the form's default month is a name that is not among the select's options.
- MonthChoices: "the default month is one of them" holds only under that English default locale; under another locale the default month name is not one of the twelve English options.
- ViewQuery: the views' query uses the same English month name, so under another default locale the query names a month that no budget saved through the English select carries, and it finds nothing.
- The sort key of a date is a number that orders dates as the calendar does, not milliseconds.
- TransactionsRoute.TransactionStore.Get: MongoDB sorts the stored date strings as text. The model assumes zero-padded "YYYY-MM-DD" strings, which is what the form's date input sends (src/components/TransactionManager.tsx:136), and for those text order is calendar order. The validator accepts any string a JavaScript `Date` can parse and the route stores it unchanged, so a date such as "March 5, 2024" or "2024-3-5" is ordered as text by the source but by calendar in the model.
- Floating point is not modelled: amounts are exact reals.
  - `parseFloat`, NaN and non-numeric amount strings are not modelled.
  - `toFixed`, `formatCurrency` and `Intl.NumberFormat` display are not modelled.
- TransactionsRoute.TransactionStore.Get: MongoDB leaves the order of equal dates open. The model fixes one order, ties in insertion order, and states sortedness and permutation separately.
- The analytics breakdown sort and the recent-transactions sort are modelled as a stable insertion sort.
- React state, effects, dialogs, loading flags and rendering are not modelled.
  - Only the computations and the request each form sends are modelled.
  - The thrown-error paths of the fetches are not modelled.
  - A failed transactions fetch in `calculateBudgetProgress` is the `None` case of its input.
- src/components/DashboardSummary.tsx, src/components/CategoryPieChart.tsx, src/app/api/components/MonthlyExpenseChart.tsx and src/app/page.tsx are not part of this model. They only display the route outputs.
- BudgetOverview.ChartName: string length is counted in characters, not UTF-16 code units, so a name containing characters outside the Basic Multilingual Plane is cut differently.
- Request bodies are typed: a transaction body's fields are the validated four plus the optional category and `_id`, and a budget body is `BudgetData`. Extra JSON fields are not modelled:
  - the create route would store them with the budget;
  - the budget update route would `$set` them.
  - The budget update's patch covers the four budget fields and `createdAt`.
- Concurrency between requests is not modelled. The budgets route's find-then-insert is not atomic in MongoDB; in the model each request runs alone.
