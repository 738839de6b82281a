/** The budget manager (src/components/BudgetManager.tsx): the progress table it
    fills budget by budget, the status and progress bar each listed budget
    shows, and the budget form's check and choices. Each budget's fetch of the
    transactions is an input: `None` for a response that was not ok. */
module BudgetManager {
  import opened Types
  import opened Text
  import opened FinanceUtils
  import opened Seqs
  import opened Amounts
  import opened BudgetOverview

  /** `{ spent, percentage }`, one entry of `progressData`. */
  datatype Progress = Progress(spent: real, percentage: real)

  /** `budget._id?.toString() || ""`: the id's text, or "" without an id. */
  function ProgressKey(b: Budget): (key: string)
    ensures key == "" <==> b.id.None?
  {
    match b.id
    case Some(id) => NatToString(id)
    case None => ""
  }

  /** Two budgets share a key exactly when both lack an id or both have the same one. */
  lemma ProgressKeyInjective(a: Budget, b: Budget)
    ensures ProgressKey(a) == ProgressKey(b) <==> a.id == b.id
  {
    if a.id.Some? && b.id.Some? {
      NatToStringInjective(a.id.value, b.id.value);
    }
  }

  /** Lines 358-371 for one budget: the same filter and share as the overview. */
  function ProgressOf(b: Budget, txs: seq<Transaction>, now: Date): Progress
  {
    var spent := Spent(txs, b, now);
    Progress(spent, BudgetPercentage(spent, b.amount))
  }

  /** `progressData` after the loop over the first `|budgets|` budgets: a budget
      whose fetch failed is skipped, and a later budget with the same key
      overwrites an earlier one. */
  function ProgressTable(budgets: seq<Budget>, responses: seq<Option<seq<Transaction>>>, now: Date): map<string, Progress>
    requires |responses| == |budgets|
    decreases |budgets|
  {
    if budgets == [] then map[]
    else
      var n := |budgets| - 1;
      var table := ProgressTable(budgets[..n], responses[..n], now);
      match responses[n]
      case None => table
      case Some(txs) => table[ProgressKey(budgets[n]) := ProgressOf(budgets[n], txs, now)]
  }

  /** Lines 344-381: the loop filling the progress record. */
  method CalculateBudgetProgress(budgets: seq<Budget>, responses: seq<Option<seq<Transaction>>>, now: Date)
    returns (progress: map<string, Progress>)
    requires |responses| == |budgets|
    ensures progress == ProgressTable(budgets, responses, now)
  {
    progress := map[];
    for i := 0 to |budgets|
      invariant progress == ProgressTable(budgets[..i], responses[..i], now)
    {
      ProgressTableStep(budgets, responses, now, i);
      match responses[i]
      case Some(txs) =>
        var b := budgets[i];
        var spent := AmountSum(Filter(txs, SpentFilter(b, now)));
        var percentage := if b.amount > 0.0 then spent / b.amount * 100.0 else 0.0;
        assert Progress(spent, percentage) == ProgressOf(b, txs, now);
        progress := progress[ProgressKey(b) := Progress(spent, percentage)];
      case None =>
    }
    assert budgets[..|budgets|] == budgets;
    assert responses[..|responses|] == responses;
  }

  /** The table after one more budget: that budget's entry set, or nothing new
      when its fetch failed. */
  lemma ProgressTableStep(budgets: seq<Budget>, responses: seq<Option<seq<Transaction>>>, now: Date, i: nat)
    requires |responses| == |budgets| && i < |budgets|
    ensures var table := ProgressTable(budgets[..i], responses[..i], now);
      ProgressTable(budgets[..i + 1], responses[..i + 1], now)
      == match responses[i]
         case None => table
         case Some(txs) => table[ProgressKey(budgets[i]) := ProgressOf(budgets[i], txs, now)]
  {
    assert budgets[..i + 1][..i] == budgets[..i];
    assert responses[..i + 1][..i] == responses[..i];
  }

  /** The table has an entry exactly for the keys of budgets whose fetch succeeded. */
  lemma {:induction false} ProgressTableKeys(budgets: seq<Budget>, responses: seq<Option<seq<Transaction>>>, now: Date, key: string)
    requires |responses| == |budgets|
    ensures key in ProgressTable(budgets, responses, now)
        <==> exists i :: 0 <= i < |budgets| && responses[i].Some? && ProgressKey(budgets[i]) == key
    decreases |budgets|
  {
    if budgets != [] {
      var n := |budgets| - 1;
      ProgressTableKeys(budgets[..n], responses[..n], now, key);
      if exists i :: 0 <= i < n && responses[..n][i].Some? && ProgressKey(budgets[..n][i]) == key {
        var i :| 0 <= i < n && responses[..n][i].Some? && ProgressKey(budgets[..n][i]) == key;
        assert responses[i].Some? && ProgressKey(budgets[i]) == key;
      }
      if exists i :: 0 <= i < |budgets| && responses[i].Some? && ProgressKey(budgets[i]) == key {
        var i :| 0 <= i < |budgets| && responses[i].Some? && ProgressKey(budgets[i]) == key;
        if i < n {
          assert responses[..n][i].Some? && ProgressKey(budgets[..n][i]) == key;
        }
      }
    }
  }

  /** A budget's entry holds its own progress unless a later budget with a
      successful fetch has the same key. */
  lemma {:induction false} ProgressTableLastWins(budgets: seq<Budget>, responses: seq<Option<seq<Transaction>>>, now: Date, i: nat)
    requires |responses| == |budgets| && i < |budgets| && responses[i].Some?
    requires forall j :: i < j < |budgets| && responses[j].Some? ==> ProgressKey(budgets[j]) != ProgressKey(budgets[i])
    ensures ProgressKey(budgets[i]) in ProgressTable(budgets, responses, now)
    ensures ProgressTable(budgets, responses, now)[ProgressKey(budgets[i])] == ProgressOf(budgets[i], responses[i].value, now)
    decreases |budgets|
  {
    var n := |budgets| - 1;
    if i < n {
      ProgressTableLastWins(budgets[..n], responses[..n], now, i);
    }
  }

  /** Lines 217-225: without an entry a budget shows success at 0 per cent;
      otherwise its entry's percentage, on the overview's thresholds. */
  function GetBudgetStatus(progress: map<string, Progress>, b: Budget): (r: (Status, real))
    ensures ProgressKey(b) !in progress ==> r == (Success, 0.0)
    ensures ProgressKey(b) in progress ==> r.1 == progress[ProgressKey(b)].percentage && r.0 == StatusOf(r.1)
  {
    var key := ProgressKey(b);
    if key !in progress then (Success, 0.0)
    else
      var percentage := progress[key].percentage;
      if percentage >= 100.0 then (Danger, percentage)
      else if percentage >= 80.0 then (Warning, percentage)
      else (Success, percentage)
  }

  /** When every budget has its own id and every fetch returns the same
      transactions, the list shows each budget with the overview's percentage
      and status. */
  lemma ListAgreesWithOverview(budgets: seq<Budget>, txs: seq<Transaction>, now: Date, i: nat)
    requires i < |budgets|
    requires forall j, k :: 0 <= j < k < |budgets| ==> budgets[j].id != budgets[k].id
    ensures var responses := seq(|budgets|, _ => Some(txs));
      GetBudgetStatus(ProgressTable(budgets, responses, now), budgets[i])
      == (Row(budgets[i], txs, now).status, Row(budgets[i], txs, now).percentage)
  {
    var responses := seq(|budgets|, _ => Some(txs));
    forall j | i < j < |budgets| && responses[j].Some?
      ensures ProgressKey(budgets[j]) != ProgressKey(budgets[i])
    {
      ProgressKeyInjective(budgets[j], budgets[i]);
    }
    ProgressTableLastWins(budgets, responses, now, i);
  }

  /** A budget whose fetch failed, and whose key no other budget's successful
      fetch filled, shows success at 0 per cent. */
  lemma FailedFetchShowsNothing(budgets: seq<Budget>, responses: seq<Option<seq<Transaction>>>, now: Date, i: nat)
    requires |responses| == |budgets| && i < |budgets| && responses[i].None?
    requires forall j :: 0 <= j < |budgets| && responses[j].Some? ==> ProgressKey(budgets[j]) != ProgressKey(budgets[i])
    ensures GetBudgetStatus(ProgressTable(budgets, responses, now), budgets[i]) == (Success, 0.0)
  {
    ProgressTableKeys(budgets, responses, now, ProgressKey(budgets[i]));
  }

  /** Line 270: `Math.min(percentage, 100)`. */
  function ProgressBarWidth(percentage: real): (width: real)
    ensures width <= 100.0 && width <= percentage
    ensures width == percentage || width == 100.0
  {
    if percentage <= 100.0 then percentage else 100.0
  }

  /** Lines 273-277: the "Budget exceeded by" amount, shown only at 100 per cent or more. */
  function Overspend(progress: map<string, Progress>, b: Budget): (r: Option<real>)
    ensures r.Some? <==> GetBudgetStatus(progress, b).1 >= 100.0
  {
    var percentage := GetBudgetStatus(progress, b).1;
    if percentage >= 100.0 then Some(progress[ProgressKey(b)].spent - b.amount) else None
  }

  /** An overspend is shown only for a positive budget whose spending reached
      it, and it is what was spent beyond the budget. */
  lemma OverspendIsExcess(progress: map<string, Progress>, b: Budget, txs: seq<Transaction>, now: Date)
    requires ProgressKey(b) in progress && progress[ProgressKey(b)] == ProgressOf(b, txs, now)
    ensures Overspend(progress, b).Some? ==>
      && b.amount > 0.0
      && Overspend(progress, b).value == Spent(txs, b, now) - b.amount
      && Overspend(progress, b).value >= 0.0
    ensures Overspend(progress, b).Some? <==> b.amount > 0.0 && Spent(txs, b, now) >= b.amount
  {
    if b.amount > 0.0 {
      ShareFacts(Spent(txs, b, now), b.amount);
    }
  }

  // ---------------------------------------------------------------------------
  // The budget form

  /** The form's fields; the amount field is `required`, so it is never empty on submit. */
  datatype BudgetFields = BudgetFields(category: string, amount: Option<real>, month: string, year: int)

  const DEFAULT_BUDGET_CATEGORY: string := "Food & Dining"

  /** Lines 43-48: an edited budget's fields, each falling back, when empty, to
      "Food & Dining", an empty amount, the current month and the current year. */
  function InitialBudgetFields(budget: Option<Budget>, now: Date): (f: BudgetFields)
    ensures budget.None? ==> f == BudgetFields(DEFAULT_BUDGET_CATEGORY, None, MONTH_NAMES[now.month], now.year)
    ensures budget.Some? ==> f.amount == Some(budget.value.amount)
    ensures budget.Some? && budget.value.category != "" ==> f.category == budget.value.category
    ensures budget.Some? && budget.value.month != "" ==> f.month == budget.value.month
    ensures budget.Some? && budget.value.year != 0 ==> f.year == budget.value.year
    ensures budget.Some? && budget.value.category == "" ==> f.category == DEFAULT_BUDGET_CATEGORY
    ensures budget.Some? && budget.value.month == "" ==> f.month == MONTH_NAMES[now.month]
    ensures budget.Some? && budget.value.year == 0 ==> f.year == now.year
  {
    match budget
    case None => BudgetFields(DEFAULT_BUDGET_CATEGORY, None, MONTH_NAMES[now.month], now.year)
    case Some(b) =>
      BudgetFields(
        if b.category != "" then b.category else DEFAULT_BUDGET_CATEGORY,
        Some(b.amount),
        if b.month != "" then b.month else MONTH_NAMES[now.month],
        if b.year != 0 then b.year else now.year)
  }

  /** Lines 82-88: a non-positive amount is refused with one message; otherwise
      the fields go on unchanged, the amount parsed. */
  function SubmitBudgetForm(f: BudgetFields): (r: FormOutcome<BudgetData>)
    requires f.amount.Some?
    ensures r.Rejected? <==> f.amount.value <= 0.0
    ensures r.Rejected? ==> r.errors == ["Amount must be greater than 0"]
    ensures r.Submitted? ==> r.data == BudgetData(f.category, f.amount.value, f.month, f.year)
  {
    var amount := f.amount.value;
    if amount <= 0.0 then Rejected(["Amount must be greater than 0"])
    else Submitted(BudgetData(f.category, amount, f.month, f.year))
  }

  /** Line 68: the year choices around the current year. */
  function YearChoices(currentYear: int): (years: seq<int>)
    ensures |years| == 5 && years[0] == currentYear - 2
    ensures forall i :: 0 <= i < 4 ==> years[i + 1] == years[i] + 1
  {
    seq(5, i requires 0 <= i < 5 => currentYear - 2 + i)
  }

  /** The choices are exactly the years within two of the current one. */
  lemma YearChoicesSpan(currentYear: int, y: int)
    ensures y in YearChoices(currentYear) <==> currentYear - 2 <= y <= currentYear + 2
  {
    var years := YearChoices(currentYear);
    if currentYear - 2 <= y <= currentYear + 2 {
      assert years[y - currentYear + 2] == y;
    }
  }

  /** Lines 53-66: the month choices are the twelve full month names, and the
      default month is among them. */
  lemma MonthChoices(now: Date)
    ensures IsMonthTable(MONTH_NAMES)
    ensures InitialBudgetFields(None, now).month in MONTH_NAMES
  {
    MonthTables();
  }

  /** Lines 383-395: an edited budget is PUT back with its id, a new one POSTed without. */
  function SaveBudgetRequest(editing: Option<Budget>, data: BudgetData): (r: SaveRequest<BudgetData>)
    ensures r.data == data
    ensures r.verb == Put <==> editing.Some?
    ensures editing.Some? ==> r.id == editing.value.id
    ensures editing.None? ==> r.id.None?
  {
    match editing
    case Some(b) => SaveRequest(Put, b.id, data)
    case None => SaveRequest(Post, None, data)
  }
}
