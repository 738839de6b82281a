/** The budget overview card (src/components/BudgetOverview.tsx): for each budget
    of the current month it computes what was spent, what remains, the share of
    the budget used and a three-tier status, then the totals and an overall
    status. `now` stands for the browser's clock. */
module BudgetOverview {
  import opened Types
  import opened Seqs
  import opened Amounts

  /** The three tiers the views colour a budget by. */
  datatype Status = Success | Warning | Danger

  /** Lines 89-91: danger from 100 per cent up, warning from 80, success below. */
  function StatusOf(percentage: real): (s: Status)
    ensures s == Danger <==> percentage >= 100.0
    ensures s == Warning <==> 80.0 <= percentage < 100.0
    ensures s == Success <==> percentage < 80.0
  {
    if percentage >= 100.0 then Danger
    else if percentage >= 80.0 then Warning
    else Success
  }

  /** The filter of lines 73-79: an expense of the budget's category, dated in
      the current calendar month (of any year) and in the budget's year. The
      budget's own month is not consulted, and a transaction without a category
      never matches. */
  function SpentFilter(b: Budget, now: Date): Transaction -> bool
  {
    (t: Transaction) =>
      t.category == Some(b.category) && t.kind == Expense
      && t.date.month == now.month && t.date.year == b.year
  }

  /** Lines 81-84. */
  function Spent(txs: seq<Transaction>, b: Budget, now: Date): real
  {
    AmountSum(Filter(txs, SpentFilter(b, now)))
  }

  /** Lines 86-87 (and 370-371 of the budget list): the share of the budget
      used, not capped at 100, or 0 for a budget that is not positive. */
  function BudgetPercentage(spent: real, amount: real): real
  {
    if amount > 0.0 then spent / amount * 100.0 else 0.0
  }

  /** `Math.max(0, x)`. */
  function ClampAtZero(x: real): (r: real)
    ensures r >= 0.0 && r >= x
    ensures r == x || r == 0.0
  {
    if x > 0.0 then x else 0.0
  }

  /** One row of `overviewData`. */
  datatype OverviewRow = OverviewRow(
    category: string,
    budget: real,
    spent: real,
    remaining: real,
    percentage: real,
    status: Status)

  /** Lines 72-101, for one budget. */
  function Row(b: Budget, txs: seq<Transaction>, now: Date): OverviewRow
  {
    var spent := Spent(txs, b, now);
    var percentage := BudgetPercentage(spent, b.amount);
    OverviewRow(b.category, b.amount, spent, ClampAtZero(b.amount - spent), percentage, StatusOf(percentage))
  }

  /** `budgets.map(...)`: one row per budget, in the budgets' order. */
  function Overview(budgets: seq<Budget>, txs: seq<Transaction>, now: Date): (rows: seq<OverviewRow>)
    ensures |rows| == |budgets|
    ensures forall i :: 0 <= i < |budgets| ==> rows[i].category == budgets[i].category && rows[i].budget == budgets[i].amount
  {
    seq(|budgets|, i requires 0 <= i < |budgets| => Row(budgets[i], txs, now))
  }

  /** For a positive budget the row's figures agree with each other: the
      percentage is the spent share, the budget is in danger exactly when
      nothing remains, and in warning exactly when at least 80 per cent but
      not all of it is spent. */
  lemma RowConsistency(b: Budget, txs: seq<Transaction>, now: Date)
    requires b.amount > 0.0
    ensures var r := Row(b, txs, now);
      && r.percentage * b.amount == r.spent * 100.0
      && (r.status == Danger <==> r.remaining == 0.0)
      && (r.status == Warning <==> 80.0 * b.amount <= r.spent * 100.0 < 100.0 * b.amount)
      && r.remaining + r.spent >= b.amount
  {
    var r := Row(b, txs, now);
    ShareFacts(r.spent, b.amount);
  }

  lemma ShareFacts(spent: real, amount: real)
    requires amount > 0.0
    ensures var p := spent / amount * 100.0;
      && p * amount == spent * 100.0
      && (p >= 100.0 <==> spent * 100.0 >= 100.0 * amount)
      && (p >= 80.0 <==> spent * 100.0 >= 80.0 * amount)
      && (p >= 100.0 <==> spent >= amount)
  {
    var p := spent / amount * 100.0;
    assert p * amount == spent * 100.0;
    ScaledComparison(p, amount, 80.0);
    ScaledComparison(p, amount, 100.0);
  }

  lemma ScaledComparison(p: real, a: real, k: real)
    requires a > 0.0
    ensures p >= k <==> p * a >= k * a
  {
    if p >= k {
      assert (p - k) * a >= 0.0;
    } else {
      assert (k - p) * a > 0.0;
    }
  }

  /** With a budget that is not positive the percentage is 0 and the row is a success. */
  lemma RowOfEmptyBudget(b: Budget, txs: seq<Transaction>, now: Date)
    requires b.amount <= 0.0
    ensures Row(b, txs, now).percentage == 0.0 && Row(b, txs, now).status == Success
  {
  }

  /** The spent amount reads the current date only through its month, and the
      budget only through its category and year. */
  lemma SpentIgnoresBudgetMonth(txs: seq<Transaction>, b: Budget, c: Budget, now: Date, later: Date)
    requires b.category == c.category && b.year == c.year && now.month == later.month
    ensures Spent(txs, b, now) == Spent(txs, c, later)
  {
    FilterAgreeing(txs, SpentFilter(b, now), SpentFilter(c, later));
  }

  /** A budget of 120 with an expense of 150 this month: nothing remains, 125 per
      cent is used, the row is in danger, and the overall Remaining card shows -30. */
  lemma OverspentExample()
    ensures var b := Budget(Some(1), "Food & Dining", 120.0, "March", 2024, None, None);
      var t := Transaction(Some(7), 150.0, Date(2024, 2, 10), "Groceries", Some("Food & Dining"), Expense, None, None);
      var r := Row(b, [t], Date(2024, 2, 20));
      && r.spent == 150.0 && r.remaining == 0.0 && r.percentage == 125.0 && r.status == Danger
      && RemainingCard(TotalBudget([b]), TotalSpent([r])) == -30.0
  {
    var b := Budget(Some(1), "Food & Dining", 120.0, "March", 2024, None, None);
    var t := Transaction(Some(7), 150.0, Date(2024, 2, 10), "Groceries", Some("Food & Dining"), Expense, None, None);
    var now := Date(2024, 2, 20);
    assert Filter([t], SpentFilter(b, now)) == [t] by {
      assert [t][..0] == [];
    }
    assert SumBy([t], TxAmount) == 150.0 by {
      assert [t][..0] == [];
    }
    var r := Row(b, [t], now);
    assert SumBy([b], BudgetAmount) == 120.0 by {
      assert [b][..0] == [];
    }
    assert SumBy([r], RowSpent) == 150.0 by {
      assert [r][..0] == [];
    }
  }

  function BudgetAmount(b: Budget): real
  {
    b.amount
  }

  function RowSpent(r: OverviewRow): real
  {
    r.spent
  }

  function RowRemaining(r: OverviewRow): real
  {
    r.remaining
  }

  /** Line 104. */
  function TotalBudget(budgets: seq<Budget>): real
  {
    SumBy(budgets, BudgetAmount)
  }

  /** Line 105. */
  function TotalSpent(rows: seq<OverviewRow>): real
  {
    SumBy(rows, RowSpent)
  }

  /** Line 213: the overall Remaining card, not clamped. */
  function RemainingCard(totalBudget: real, totalSpent: real): real
  {
    totalBudget - totalSpent
  }

  /** The overall Remaining card never shows more than the rows' remaining
      amounts together, and is negative exactly when more was spent than budgeted,
      while no row's remaining is ever negative. */
  lemma {:induction false} RemainingCardBelowRows(budgets: seq<Budget>, txs: seq<Transaction>, now: Date)
    ensures var rows := Overview(budgets, txs, now);
      && RemainingCard(TotalBudget(budgets), TotalSpent(rows)) <= SumBy(rows, RowRemaining)
      && (RemainingCard(TotalBudget(budgets), TotalSpent(rows)) < 0.0 <==> TotalSpent(rows) > TotalBudget(budgets))
      && forall i :: 0 <= i < |rows| ==> rows[i].remaining >= 0.0
    decreases |budgets|
  {
    var rows := Overview(budgets, txs, now);
    assert forall i :: 0 <= i < |rows| ==> rows[i].remaining >= 0.0 by {
      forall i | 0 <= i < |rows|
        ensures rows[i].remaining >= 0.0
      {
        assert rows[i] == Row(budgets[i], txs, now);
      }
    }
    if budgets != [] {
      var front, b := budgets[..|budgets| - 1], budgets[|budgets| - 1];
      assert budgets == front + [b];
      RemainingCardBelowRows(front, txs, now);
      var before, r := Overview(front, txs, now), Row(b, txs, now);
      OverviewSnoc(front, b, txs, now);
      SumBySnoc(before, r, RowSpent);
      SumBySnoc(before, r, RowRemaining);
      SumBySnoc(front, b, BudgetAmount);
      assert r.remaining >= b.amount - r.spent;
    }
  }

  lemma OverviewSnoc(budgets: seq<Budget>, b: Budget, txs: seq<Transaction>, now: Date)
    ensures Overview(budgets + [b], txs, now) == Overview(budgets, txs, now) + [Row(b, txs, now)]
  {
    var all := budgets + [b];
    assert forall i :: 0 <= i < |budgets| ==> all[i] == budgets[i];
  }

  /** Lines 169-170. */
  function OverallPercentage(totalBudget: real, totalSpent: real): real
  {
    if totalBudget > 0.0 then totalSpent / totalBudget * 100.0 else 0.0
  }

  /** Lines 243-247: the overall caption, on the same thresholds as a row's status. */
  function OverallLabel(percentage: real): (caption: string)
    ensures caption == "Over budget" <==> StatusOf(percentage) == Danger
    ensures caption == "Near limit" <==> StatusOf(percentage) == Warning
    ensures caption == "On track" <==> StatusOf(percentage) == Success
  {
    if percentage >= 100.0 then "Over budget"
    else if percentage >= 80.0 then "Near limit"
    else "On track"
  }

  /** Lines 222-238: the overall icon and colour use the same tiers as a row. */
  function OverallStatus(totalBudget: real, totalSpent: real): Status
  {
    StatusOf(OverallPercentage(totalBudget, totalSpent))
  }

  /** With nothing budgeted the overall figure is 0 per cent, on track, whatever was spent. */
  lemma NothingBudgeted(totalSpent: real)
    ensures OverallPercentage(0.0, totalSpent) == 0.0
    ensures OverallStatus(0.0, totalSpent) == Success
    ensures OverallLabel(OverallPercentage(0.0, totalSpent)) == "On track"
  {
  }

  /** Lines 135-143: category names over 10 characters are cut to 10 and get "...". */
  function ChartName(category: string): (name: string)
    ensures |category| <= 10 ==> name == category
    ensures |category| > 10 ==> |name| == 13 && name[..10] == category[..10] && name[10..] == "..."
  {
    if |category| > 10 then category[..10] + "..." else category
  }

  /** Line 34. */
  const COLORS: seq<string> := ["#10b981", "#f59e0b", "#ef4444", "#8b5cf6", "#06b6d4"]

  /** Line 148: the pie slice colour of the row at `index`. */
  function PieColor(index: nat): (color: string)
    ensures color in COLORS
  {
    COLORS[index % |COLORS|]
  }

  /** Colours repeat every five rows and the first five rows all differ. */
  lemma PieColorsCycle(index: nat)
    ensures PieColor(index + 5) == PieColor(index)
    ensures forall i, j :: 0 <= i < j < 5 ==> PieColor(i) != PieColor(j)
  {
  }
}
