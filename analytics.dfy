/** The analytics endpoint (src/app/api/analytics/route.ts, `GET`): from every
    stored transaction it builds a trailing six-month expense series, a
    per-category expense breakdown, the five most recent transactions and the
    totals. The transactions are given as an array because the route sorts
    them in place before it sums the income. */
module Analytics {
  import opened Types
  import opened Text
  import opened FinanceUtils
  import opened Seqs
  import opened Sorting
  import opened Amounts

  // ---------------------------------------------------------------------------
  // The trailing six-month series

  lemma MonthOrdinalInjective(a: YearMonth, b: YearMonth)
    ensures MonthOrdinal(a) == MonthOrdinal(b) <==> a == b
  {
    if a.year < b.year {
      assert a.year * 12 + 12 <= b.year * 12;
    } else if a.year > b.year {
      assert b.year * 12 + 12 <= a.year * 12;
    }
  }

  /** `new Date(year, month - i, 1)`: the month `i` months before `ym`, with the
      Date constructor carrying an out-of-range month into the year. */
  function MonthsBack(ym: YearMonth, i: int): (r: YearMonth)
    ensures MonthOrdinal(r) == MonthOrdinal(ym) - i
  {
    var total := ym.year * 12 + ym.month - i;
    YearMonth(total / 12, total % 12)
  }

  /** The months of the series, oldest first: the loop runs `i` from 5 down to 0. */
  function Window(now: Date): (w: seq<YearMonth>)
    ensures |w| == 6
    ensures forall k :: 0 <= k < 6 ==> MonthOrdinal(w[k]) == MonthOrdinal(YearMonthOf(now)) - 5 + k
  {
    seq(6, k requires 0 <= k < 6 => MonthsBack(YearMonthOf(now), 5 - k))
  }

  /** The loop's `i` months back is position `5 - i` of the window. */
  lemma WindowAt(now: Date, i: int)
    requires 0 <= i <= 5
    ensures Window(now)[5 - i] == MonthsBack(YearMonthOf(now), i)
  {
  }

  /** Six consecutive calendar months, all different, the last one being the month of `now`. */
  lemma WindowShape(now: Date)
    ensures Window(now)[5] == YearMonthOf(now)
    ensures forall k :: 0 <= k < 5 ==> MonthOrdinal(Window(now)[k + 1]) == MonthOrdinal(Window(now)[k]) + 1
    ensures Distinct(Window(now))
  {
    var w := Window(now);
    MonthOrdinalInjective(w[5], YearMonthOf(now));
    forall i, j | 0 <= i < j < 6
      ensures w[i] != w[j]
    {
      MonthOrdinalInjective(w[i], w[j]);
    }
  }

  /** In February the window reaches back into the previous year. */
  lemma WindowAcrossNewYear()
    ensures Window(Date(2024, 1, 15)) == [
      YearMonth(2023, 8), YearMonth(2023, 9), YearMonth(2023, 10),
      YearMonth(2023, 11), YearMonth(2024, 0), YearMonth(2024, 1)]
  {
    var w := Window(Date(2024, 1, 15));
    MonthOrdinalInjective(w[0], YearMonth(2023, 8));
    MonthOrdinalInjective(w[1], YearMonth(2023, 9));
    MonthOrdinalInjective(w[2], YearMonth(2023, 10));
    MonthOrdinalInjective(w[3], YearMonth(2023, 11));
    MonthOrdinalInjective(w[4], YearMonth(2024, 0));
    MonthOrdinalInjective(w[5], YearMonth(2024, 1));
  }

  /** The filter of one bucket: an expense dated in that month of that year. */
  function InMonth(ym: YearMonth): Transaction -> bool
  {
    (t: Transaction) => t.kind == Expense && YearMonthOf(t.date) == ym
  }

  /** One bucket: the "Mmm yyyy" label and the expenses of that month. */
  function Bucket(txs: seq<Transaction>, ym: YearMonth): MonthlyExpense
  {
    MonthlyExpense(MonthLabel(MONTH_ABBREVIATIONS, ym), AmountSum(Filter(txs, InMonth(ym))))
  }

  /** One bucket per month, in the order of `months`. */
  function Series(txs: seq<Transaction>, months: seq<YearMonth>): seq<MonthlyExpense>
  {
    seq(|months|, k requires 0 <= k < |months| => Bucket(txs, months[k]))
  }

  /** The loop of lines 17-56: one bucket pushed per month, oldest first. */
  method MonthlyExpenseSeries(txs: seq<Transaction>, now: Date) returns (series: seq<MonthlyExpense>)
    ensures |series| == 6
    ensures forall k :: 0 <= k < 6 ==> series[k] == Bucket(txs, Window(now)[k])
    ensures series == Series(txs, Window(now))
  {
    var w := Window(now);
    series := [];
    var i := 5;
    while i >= 0
      invariant -1 <= i <= 5
      invariant |series| == 5 - i
      invariant forall k :: 0 <= k < 5 - i ==> series[k] == Bucket(txs, w[k])
    {
      var ym := MonthsBack(YearMonthOf(now), i);
      WindowAt(now, i);
      var monthName := MonthLabel(MONTH_ABBREVIATIONS, ym);
      var total := AmountSum(Filter(txs, InMonth(ym)));
      assert MonthlyExpense(monthName, total) == Bucket(txs, w[5 - i]);
      series := series + [MonthlyExpense(monthName, total)];
      i := i - 1;
    }
    assert series == Series(txs, w);
  }

  /** A bucket label reads back as its month, so the six labels differ. */
  lemma SeriesLabels(txs: seq<Transaction>, now: Date)
    ensures forall k :: 0 <= k < 6 ==>
      ParseMonthLabel(MONTH_ABBREVIATIONS, Series(txs, Window(now))[k].month) == Some(Window(now)[k])
    ensures forall i, j :: 0 <= i < j < 6 ==> Series(txs, Window(now))[i].month != Series(txs, Window(now))[j].month
  {
    var w := Window(now);
    MonthTables();
    forall k | 0 <= k < 6
      ensures ParseMonthLabel(MONTH_ABBREVIATIONS, Series(txs, w)[k].month) == Some(w[k])
    {
      MonthLabelRoundTrip(MONTH_ABBREVIATIONS, w[k]);
    }
    WindowShape(now);
  }

  /** Appending a transaction to the input changes a bucket only when it is an
      expense of that month, and then by its amount; income never counts. */
  lemma BucketStep(txs: seq<Transaction>, t: Transaction, ym: YearMonth)
    ensures Bucket(txs + [t], ym).amount
         == Bucket(txs, ym).amount + (if t.kind == Expense && YearMonthOf(t.date) == ym then t.amount else 0.0)
    ensures Bucket(txs + [t], ym).month == Bucket(txs, ym).month
  {
    FilterSnoc(txs, t, InMonth(ym));
    if InMonth(ym)(t) {
      SumBySnoc(Filter(txs, InMonth(ym)), t, TxAmount);
    } else {
      assert Filter(txs, InMonth(ym)) + [] == Filter(txs, InMonth(ym));
    }
  }

  /** A month without expenses has a zero bucket. */
  lemma {:induction false} BucketEmpty(txs: seq<Transaction>, ym: YearMonth)
    requires forall i :: 0 <= i < |txs| ==> txs[i].kind == Income || YearMonthOf(txs[i].date) != ym
    ensures Bucket(txs, ym).amount == 0.0
    decreases |txs|
  {
    if txs != [] {
      var front := txs[..|txs| - 1];
      BucketEmpty(front, ym);
      BucketStep(front, txs[|txs| - 1], ym);
      assert front + [txs[|txs| - 1]] == txs;
    }
  }

  function MonthlyAmount(e: MonthlyExpense): real
  {
    e.amount
  }

  /** Against distinct months, each transaction is counted at most once across
      the buckets: exactly when it is an expense in one of them. */
  lemma {:induction false} SeriesTotalStep(txs: seq<Transaction>, t: Transaction, months: seq<YearMonth>)
    requires Distinct(months)
    ensures SumBy(Series(txs + [t], months), MonthlyAmount)
         == SumBy(Series(txs, months), MonthlyAmount)
            + (if t.kind == Expense && YearMonthOf(t.date) in months then t.amount else 0.0)
    decreases |months|
  {
    if months != [] {
      var front, m := months[..|months| - 1], months[|months| - 1];
      assert months == front + [m];
      SeriesTotalStep(txs, t, front);
      BucketStep(txs, t, m);
      SeriesSnoc(txs + [t], front, m);
      SeriesSnoc(txs, front, m);
      assert m !in front;
      var d := YearMonthOf(t.date);
      var counted := t.kind == Expense;
      assert (if counted && d in months then t.amount else 0.0)
          == (if counted && d in front then t.amount else 0.0) + (if counted && d == m then t.amount else 0.0);
    }
  }

  lemma SeriesSnoc(txs: seq<Transaction>, months: seq<YearMonth>, m: YearMonth)
    ensures SumBy(Series(txs, months + [m]), MonthlyAmount)
         == SumBy(Series(txs, months), MonthlyAmount) + Bucket(txs, m).amount
  {
    assert (months + [m])[..|months|] == months;
    assert Series(txs, months + [m]) == Series(txs, months) + [Bucket(txs, m)];
    SumBySnoc(Series(txs, months), Bucket(txs, m), MonthlyAmount);
  }

  /** The buckets never add up to more than the total expenses when amounts are
      non-negative. */
  lemma {:induction false} SeriesWithinTotal(txs: seq<Transaction>, months: seq<YearMonth>)
    requires Distinct(months)
    requires forall i :: 0 <= i < |txs| ==> txs[i].amount >= 0.0
    ensures SumBy(Series(txs, months), MonthlyAmount) <= AmountSum(Filter(txs, IsExpense))
    decreases |txs|
  {
    if txs == [] {
      SeriesOfNothing(months);
    } else {
      var front, t := txs[..|txs| - 1], txs[|txs| - 1];
      assert txs == front + [t];
      SeriesWithinTotal(front, months);
      SeriesTotalStep(front, t, months);
      ExpenseTotalSnoc(front, t);
    }
  }

  /** The buckets add up to exactly the total expenses when every expense falls
      in the window, whatever the amounts. */
  lemma {:induction false} SeriesCoversTotal(txs: seq<Transaction>, months: seq<YearMonth>)
    requires Distinct(months)
    ensures (forall i :: 0 <= i < |txs| && txs[i].kind == Expense ==> YearMonthOf(txs[i].date) in months)
        ==> SumBy(Series(txs, months), MonthlyAmount) == AmountSum(Filter(txs, IsExpense))
    decreases |txs|
  {
    if txs == [] {
      SeriesOfNothing(months);
    } else {
      var front, t := txs[..|txs| - 1], txs[|txs| - 1];
      assert txs == front + [t];
      SeriesCoversTotal(front, months);
      SeriesTotalStep(front, t, months);
      ExpenseTotalSnoc(front, t);
    }
  }

  lemma ExpenseTotalSnoc(txs: seq<Transaction>, t: Transaction)
    ensures AmountSum(Filter(txs + [t], IsExpense))
         == AmountSum(Filter(txs, IsExpense)) + (if t.kind == Expense then t.amount else 0.0)
  {
    FilterSnoc(txs, t, IsExpense);
    var before := Filter(txs, IsExpense);
    if t.kind == Expense {
      assert Filter(txs + [t], IsExpense) == before + [t];
      SumBySnoc(before, t, TxAmount);
    } else {
      assert Filter(txs + [t], IsExpense) == before;
    }
  }

  /** With no transactions every bucket is 0, and so is their total. */
  lemma {:induction false} SeriesOfNothing(months: seq<YearMonth>)
    ensures |Series([], months)| == |months|
    ensures forall k :: 0 <= k < |months| ==> Series([], months)[k].amount == 0.0
    ensures SumBy(Series([], months), MonthlyAmount) == 0.0
    decreases |months|
  {
    forall k | 0 <= k < |months|
      ensures Series([], months)[k].amount == 0.0
    {
      BucketEmpty([], months[k]);
    }
    if months != [] {
      var front, m := months[..|months| - 1], months[|months| - 1];
      assert months == front + [m];
      SeriesOfNothing(front);
      SeriesSnoc([], front, m);
      assert Filter([], InMonth(m)) == [];
    }
  }

  // ---------------------------------------------------------------------------
  // The category map

  /** `t.category || "Other"`. */
  function CategoryKey(t: Transaction): string
  {
    CategoryOrOther(t.category)
  }

  function InCategory(c: string): Transaction -> bool
  {
    (t: Transaction) => CategoryKey(t) == c
  }

  /** A `Map<string, number>`: its entries in insertion order. */
  type CategoryMap = seq<(string, real)>

  function Keys(m: CategoryMap): (ks: seq<string>)
    ensures |ks| == |m| && forall i :: 0 <= i < |m| ==> ks[i] == m[i].0
  {
    seq(|m|, i requires 0 <= i < |m| => m[i].0)
  }

  /** Where `c` first occurs among `ks`. */
  function IndexOfKey(ks: seq<string>, c: string): (r: Option<nat>)
    ensures r.None? <==> c !in ks
    ensures r.Some? ==> r.value < |ks| && ks[r.value] == c && c !in ks[..r.value]
  {
    if ks == [] then None
    else if ks[0] == c then Some(0)
    else
      match IndexOfKey(ks[1..], c)
      case None => None
      case Some(k) =>
        assert ks[..k + 1] == [ks[0]] + ks[1..][..k];
        Some(k + 1)
  }

  lemma FirstIndexOfKey(ks: seq<string>, c: string, k: nat)
    requires k < |ks| && ks[k] == c && c !in ks[..k]
    ensures IndexOfKey(ks, c) == Some(k)
  {
    var r := IndexOfKey(ks, c).value;
    assert forall j :: 0 <= j < k ==> ks[..k][j] == ks[j];
    assert forall j :: 0 <= j < r ==> ks[..r][j] == ks[j];
  }

  /** `categoryMap.get(c) || 0`. */
  function Lookup(m: CategoryMap, c: string): real
  {
    match IndexOfKey(Keys(m), c)
    case Some(i) => m[i].1
    case None => 0.0
  }

  /** `categoryMap.set(c, v)`: overwrites the entry of `c` where it stands, or
      appends a new entry. */
  function Set(m: CategoryMap, c: string, v: real): CategoryMap
  {
    match IndexOfKey(Keys(m), c)
    case Some(i) => m[i := (c, v)]
    case None => m + [(c, v)]
  }

  lemma SetKeys(m: CategoryMap, c: string, v: real)
    ensures Keys(Set(m, c, v)) == if c in Keys(m) then Keys(m) else Keys(m) + [c]
  {
  }

  lemma SetLookup(m: CategoryMap, c: string, v: real, d: string)
    ensures Lookup(Set(m, c, v), d) == if d == c then v else Lookup(m, d)
  {
    var ks := Keys(m);
    SetKeys(m, c, v);
    if c !in ks {
      match IndexOfKey(ks, d)
      case Some(j) =>
        FirstIndexOfKey(ks + [c], d, j);
        assert (ks + [c])[..j] == ks[..j];
      case None =>
        if d == c {
          FirstIndexOfKey(ks + [c], c, |ks|);
          assert (ks + [c])[..|ks|] == ks;
        }
    }
  }

  /** One step of the `forEach`: the expense's amount added to its category. */
  function Accumulate(m: CategoryMap, t: Transaction): CategoryMap
  {
    var c := CategoryKey(t);
    Set(m, c, Lookup(m, c) + t.amount)
  }

  /** The map after the `forEach` over `expenses`. */
  function Group(expenses: seq<Transaction>): CategoryMap
    decreases |expenses|
  {
    if expenses == [] then []
    else Accumulate(Group(expenses[..|expenses| - 1]), expenses[|expenses| - 1])
  }

  /** Lines 67-71, the `forEach` filling the map. */
  method BuildCategoryMap(expenses: seq<Transaction>) returns (m: CategoryMap)
    ensures m == Group(expenses)
  {
    m := [];
    for i := 0 to |expenses|
      invariant m == Group(expenses[..i])
    {
      assert expenses[..i + 1][..i] == expenses[..i];
      var c := CategoryKey(expenses[i]);
      m := Set(m, c, Lookup(m, c) + expenses[i].amount);
    }
    assert expenses[..|expenses|] == expenses;
  }

  /** One entry per category met, and a category is met iff some transaction has it. */
  lemma GroupKeys(es: seq<Transaction>, c: string)
    ensures Distinct(Keys(Group(es)))
    ensures c in Keys(Group(es)) <==> exists i :: 0 <= i < |es| && CategoryKey(es[i]) == c
  {
    GroupKeysDistinct(es);
    GroupKeysMet(es, c);
  }

  /** The keys after one more step: the same, or the new category appended. */
  lemma GroupStepKeys(es: seq<Transaction>)
    requires es != []
    ensures var front, t := es[..|es| - 1], es[|es| - 1];
      Keys(Group(es)) == if CategoryKey(t) in Keys(Group(front)) then Keys(Group(front)) else Keys(Group(front)) + [CategoryKey(t)]
  {
    var front, t := es[..|es| - 1], es[|es| - 1];
    var g, k := Group(front), CategoryKey(t);
    assert Group(es) == Set(g, k, Lookup(g, k) + t.amount);
    SetKeys(g, k, Lookup(g, k) + t.amount);
  }

  lemma {:induction false} GroupKeysDistinct(es: seq<Transaction>)
    ensures Distinct(Keys(Group(es)))
    decreases |es|
  {
    if es != [] {
      var front, t := es[..|es| - 1], es[|es| - 1];
      GroupKeysDistinct(front);
      GroupStepKeys(es);
      var ks, k := Keys(Group(front)), CategoryKey(t);
      if k !in ks {
        var ks' := ks + [k];
        forall i, j | 0 <= i < j < |ks'|
          ensures ks'[i] != ks'[j]
        {
          if j == |ks| {
            assert ks'[i] == ks[i] && ks[i] in ks;
          } else {
            assert ks'[i] == ks[i] && ks'[j] == ks[j];
          }
        }
      }
    }
  }

  lemma {:induction false} GroupKeysMet(es: seq<Transaction>, c: string)
    ensures c in Keys(Group(es)) <==> exists i :: 0 <= i < |es| && CategoryKey(es[i]) == c
    decreases |es|
  {
    if es != [] {
      var front, t := es[..|es| - 1], es[|es| - 1];
      GroupKeysMet(front, c);
      GroupStepKeys(es);
      assert c in Keys(Group(es)) <==> c in Keys(Group(front)) || c == CategoryKey(t);
      if c in Keys(Group(front)) {
        var i :| 0 <= i < |front| && CategoryKey(front[i]) == c;
        assert es[i] == front[i];
      }
      if c == CategoryKey(t) {
        assert CategoryKey(es[|es| - 1]) == c;
      }
      if exists i :: 0 <= i < |es| && CategoryKey(es[i]) == c {
        var i :| 0 <= i < |es| && CategoryKey(es[i]) == c;
        if i < |front| {
          assert front[i] == es[i];
        }
      }
    }
  }

  /** The value kept for a category is the sum of its transactions' amounts. */
  lemma {:induction false} GroupLookup(es: seq<Transaction>, c: string)
    ensures Lookup(Group(es), c) == AmountSum(Filter(es, InCategory(c)))
    decreases |es|
  {
    if es != [] {
      var front, t := es[..|es| - 1], es[|es| - 1];
      assert es == front + [t];
      GroupLookup(front, c);
      assert Group(es) == Accumulate(Group(front), t);
      AccumulateLookup(Group(front), t, c);
      var p := InCategory(c);
      FilterSnoc(front, t, p);
      var before := Filter(front, p);
      if CategoryKey(t) == c {
        assert Filter(es, p) == before + [t];
        SumBySnoc(before, t, TxAmount);
      } else {
        assert Filter(es, p) == before;
      }
    }
  }

  /** One step of the `forEach` adds the amount to its own category only. */
  lemma AccumulateLookup(g: CategoryMap, t: Transaction, c: string)
    ensures Lookup(Accumulate(g, t), c) == Lookup(g, c) + (if CategoryKey(t) == c then t.amount else 0.0)
  {
    var k := CategoryKey(t);
    SetLookup(g, k, Lookup(g, k) + t.amount, c);
  }

  /** One step of the `forEach` adds the amount to the map's total. */
  lemma AccumulateTotal(g: CategoryMap, t: Transaction)
    ensures SumBy(Accumulate(g, t), EntryValue) == SumBy(g, EntryValue) + t.amount
  {
    var k := CategoryKey(t);
    match IndexOfKey(Keys(g), k)
    case Some(i) =>
      assert g[i].0 == k;
      assert Accumulate(g, t) == g[i := (g[i].0, g[i].1 + t.amount)];
      SumByUpdate(g, i, g[i].1 + t.amount);
    case None =>
      assert Accumulate(g, t) == g + [(k, 0.0 + t.amount)];
      SumBySnoc(g, (k, 0.0 + t.amount), EntryValue);
  }

  /** With distinct keys, an entry's value is what `get` returns for its key. */
  lemma LookupEntry(m: CategoryMap, i: nat)
    requires i < |m| && Distinct(Keys(m))
    ensures Lookup(m, m[i].0) == m[i].1
  {
    var ks := Keys(m);
    assert m[i].0 !in ks[..i] by {
      forall j | 0 <= j < i
        ensures ks[..i][j] != m[i].0
      {
        assert ks[j] != ks[i];
      }
    }
    FirstIndexOfKey(ks, m[i].0, i);
  }

  function EntryValue(e: (string, real)): real
  {
    e.1
  }

  lemma {:induction false} SumByUpdate(m: CategoryMap, i: nat, v: real)
    requires i < |m|
    ensures SumBy(m[i := (m[i].0, v)], EntryValue) == SumBy(m, EntryValue) - m[i].1 + v
    decreases |m|
  {
    var u := m[i := (m[i].0, v)];
    if i < |m| - 1 {
      SumByUpdate(m[..|m| - 1], i, v);
      assert u[..|u| - 1] == m[..|m| - 1][i := (m[i].0, v)];
    } else {
      assert u[..|u| - 1] == m[..|m| - 1];
    }
  }

  /** The map's values add up to the total of the transactions. */
  lemma {:induction false} GroupTotal(es: seq<Transaction>)
    ensures SumBy(Group(es), EntryValue) == AmountSum(es)
    decreases |es|
  {
    if es != [] {
      var front, t := es[..|es| - 1], es[|es| - 1];
      assert es == front + [t];
      GroupTotal(front);
      SumBySnoc(front, t, TxAmount);
      AccumulateTotal(Group(front), t);
    }
  }

  /** Where `c` first occurs among the transactions' categories (`|es|` if never). */
  function FirstAt(es: seq<Transaction>, c: string): (r: nat)
    ensures r <= |es|
    ensures r < |es| ==> CategoryKey(es[r]) == c
    ensures forall q :: 0 <= q < r ==> CategoryKey(es[q]) != c
    decreases |es|
  {
    if es == [] then 0
    else
      var front := es[..|es| - 1];
      var f := FirstAt(front, c);
      if f < |front| then f
      else if CategoryKey(es[|es| - 1]) == c then |front|
      else |es|
  }

  /** Map entries stand in the order their categories were first met. */
  lemma {:induction false} GroupFirstEncounter(es: seq<Transaction>, i: nat, j: nat)
    requires i < j < |Group(es)|
    ensures FirstAt(es, Group(es)[i].0) < FirstAt(es, Group(es)[j].0)
    decreases |es|
  {
    var front, t := es[..|es| - 1], es[|es| - 1];
    var g, c := Group(front), CategoryKey(t);
    var ki, kj := Group(es)[i].0, Group(es)[j].0;
    SetKeys(g, c, Lookup(g, c) + t.amount);
    assert Keys(Group(es))[i] == ki && Keys(Group(es))[j] == kj;
    FirstInFront(front, t, ki);
    if c in Keys(g) {
      GroupFirstEncounter(front, i, j);
      assert Keys(g)[i] == ki && Keys(g)[j] == kj;
      FirstInFront(front, t, kj);
    } else {
      assert Keys(g)[i] == ki;
      if j < |g| {
        GroupFirstEncounter(front, i, j);
        assert Keys(g)[j] == kj;
        FirstInFront(front, t, kj);
      } else {
        GroupKeys(front, c);
        assert FirstAt(front, c) == |front|;
      }
    }
  }

  /** A key of the map over `front` is met inside `front`. */
  lemma FirstInFront(front: seq<Transaction>, t: Transaction, k: string)
    requires k in Keys(Group(front))
    ensures FirstAt(front, k) < |front|
    ensures FirstAt(front + [t], k) == FirstAt(front, k)
  {
    GroupKeys(front, k);
    var p :| 0 <= p < |front| && CategoryKey(front[p]) == k;
    assert (front + [t])[..|front|] == front;
  }

  // ---------------------------------------------------------------------------
  // The breakdown

  /** `Math.round`: the nearest integer, halves rounded up. */
  function Round(x: real): (r: int)
    ensures x - 0.5 < r as real <= x + 0.5
  {
    (x + 0.5).Floor
  }

  /** Lines 79-80: the rounded share of the total, or 0 without a positive total. */
  function Percentage(amount: real, total: real): int
  {
    if total > 0.0 then Round(amount / total * 100.0) else 0
  }

  lemma PercentageBounds(amount: real, total: real)
    ensures total <= 0.0 ==> Percentage(amount, total) == 0
    ensures total > 0.0 ==>
      amount / total * 100.0 - 0.5 < Percentage(amount, total) as real <= amount / total * 100.0 + 0.5
    ensures 0.0 <= amount <= total ==> 0 <= Percentage(amount, total) <= 100
  {
    if 0.0 <= amount <= total && total > 0.0 {
      assert amount / total <= 1.0 by {
        assert amount / total * total == amount;
      }
    }
  }

  function AmountOf(e: CategoryExpense): real
  {
    e.amount
  }

  function PercentOf(e: CategoryExpense): real
  {
    match e.percentage
    case Some(p) => p as real
    case None => 0.0
  }

  function Categories(b: seq<CategoryExpense>): seq<string>
  {
    seq(|b|, i requires 0 <= i < |b| => b[i].category)
  }

  /** Lines 73-81: each map entry with its percentage, in map order. */
  function WithPercentages(m: CategoryMap, total: real): seq<CategoryExpense>
  {
    seq(|m|, i requires 0 <= i < |m| => CategoryExpense(m[i].0, m[i].1, Some(Percentage(m[i].1, total))))
  }

  /** `categoryBreakdown`: the entries with percentages, sorted by amount, larger first. */
  function Breakdown(txs: seq<Transaction>): seq<CategoryExpense>
  {
    var expenses := Filter(txs, IsExpense);
    SortDesc(WithPercentages(Group(expenses), AmountSum(expenses)), AmountOf)
  }

  /** Lines 59-82: the expenses, their total, the map, and the sorted rows. */
  method CategoryBreakdown(txs: seq<Transaction>) returns (breakdown: seq<CategoryExpense>, totalExpenses: real)
    ensures breakdown == Breakdown(txs)
    ensures totalExpenses == AmountSum(Filter(txs, IsExpense))
  {
    var expenses := Filter(txs, IsExpense);
    totalExpenses := AmountSum(expenses);
    var m := BuildCategoryMap(expenses);
    var entries := WithPercentages(m, totalExpenses);
    var rows := new CategoryExpense[|entries|](i requires 0 <= i < |entries| => entries[i]);
    assert rows[..] == entries;
    SortInPlace(rows, AmountOf);
    breakdown := rows[..];
  }

  /** The rows are ordered by amount, larger first, and rows of equal amount keep
      the map's order, which is the order their categories were first met. */
  lemma BreakdownOrder(txs: seq<Transaction>, v: real)
    ensures SortedDesc(Breakdown(txs), AmountOf)
    ensures var expenses := Filter(txs, IsExpense);
      WithKey(Breakdown(txs), AmountOf, v)
      == WithKey(WithPercentages(Group(expenses), AmountSum(expenses)), AmountOf, v)
  {
    var expenses := Filter(txs, IsExpense);
    var rows := WithPercentages(Group(expenses), AmountSum(expenses));
    SortDescSortedPermutation(rows, AmountOf);
    SortDescStable(rows, AmountOf, v);
  }

  /** The unsorted rows carry the map's keys, so no category twice. */
  lemma RowsOfGroup(expenses: seq<Transaction>)
    ensures var rows := WithPercentages(Group(expenses), AmountSum(expenses));
      && Categories(rows) == Keys(Group(expenses))
      && Distinct(Categories(rows))
  {
    GroupKeys(expenses, "");
  }

  lemma {:induction false} RowsTotal(m: CategoryMap, total: real)
    ensures SumBy(WithPercentages(m, total), AmountOf) == SumBy(m, EntryValue)
    decreases |m|
  {
    if m != [] {
      RowsTotal(m[..|m| - 1], total);
      assert WithPercentages(m, total)[..|m| - 1] == WithPercentages(m[..|m| - 1], total);
    }
  }

  /** A reordering of rows with distinct categories has distinct categories, the same ones. */
  lemma PermutedRows(rows: seq<CategoryExpense>, b: seq<CategoryExpense>, c: string)
    requires multiset(b) == multiset(rows) && Distinct(Categories(rows))
    ensures Distinct(Categories(b))
    ensures c in Categories(b) <==> c in Categories(rows)
  {
    assert Distinct(rows) by {
      forall i, j | 0 <= i < j < |rows|
        ensures rows[i] != rows[j]
      {
        assert Categories(rows)[i] != Categories(rows)[j];
      }
    }
    DistinctPermutation(rows, b);
    forall i, j | 0 <= i < j < |b|
      ensures Categories(b)[i] != Categories(b)[j]
    {
      assert b[i] in multiset(rows) && b[j] in multiset(rows);
      var p :| 0 <= p < |rows| && rows[p] == b[i];
      var q :| 0 <= q < |rows| && rows[q] == b[j];
      assert Categories(rows)[p] == b[i].category && Categories(rows)[q] == b[j].category;
    }
    if c in Categories(b) {
      var i :| 0 <= i < |b| && Categories(b)[i] == c;
      assert b[i] in multiset(rows);
      var p :| 0 <= p < |rows| && rows[p] == b[i];
      assert Categories(rows)[p] == c;
    }
    if c in Categories(rows) {
      var p :| 0 <= p < |rows| && Categories(rows)[p] == c;
      assert rows[p] in multiset(b);
      var i :| 0 <= i < |b| && b[i] == rows[p];
      assert Categories(b)[i] == c;
    }
  }

  /** One row per category that some expense carries (a missing one counted as
      "Other"), no category twice. */
  lemma BreakdownCategories(txs: seq<Transaction>, c: string)
    ensures Distinct(Categories(Breakdown(txs)))
    ensures var expenses := Filter(txs, IsExpense);
      c in Categories(Breakdown(txs)) <==> exists i :: 0 <= i < |expenses| && CategoryKey(expenses[i]) == c
  {
    var expenses := Filter(txs, IsExpense);
    var rows := WithPercentages(Group(expenses), AmountSum(expenses));
    RowsOfGroup(expenses);
    GroupKeys(expenses, c);
    SortDescSortedPermutation(rows, AmountOf);
    PermutedRows(rows, Breakdown(txs), c);
  }

  /** A row built from the map holds its category's sum and that sum's percentage. */
  lemma RowOfGroup(expenses: seq<Transaction>, row: CategoryExpense)
    requires row in WithPercentages(Group(expenses), AmountSum(expenses))
    ensures row.amount == AmountSum(Filter(expenses, InCategory(row.category)))
    ensures row.percentage == Some(Percentage(row.amount, AmountSum(expenses)))
  {
    var g := Group(expenses);
    var rows := WithPercentages(g, AmountSum(expenses));
    var p :| 0 <= p < |rows| && rows[p] == row;
    GroupKeys(expenses, "");
    LookupEntry(g, p);
    GroupLookup(expenses, row.category);
  }

  /** Each row carries the sum of its category's expenses and that sum's
      percentage, and the rows add up to the total expenses. */
  lemma BreakdownAmounts(txs: seq<Transaction>)
    ensures var expenses := Filter(txs, IsExpense);
      var total := AmountSum(expenses);
      var b := Breakdown(txs);
      && (forall i :: 0 <= i < |b| ==>
            && b[i].amount == AmountSum(Filter(expenses, InCategory(b[i].category)))
            && b[i].percentage == Some(Percentage(b[i].amount, total)))
      && SumBy(b, AmountOf) == total
  {
    var expenses := Filter(txs, IsExpense);
    var total := AmountSum(expenses);
    var rows := WithPercentages(Group(expenses), total);
    var b := Breakdown(txs);
    SortDescSortedPermutation(rows, AmountOf);
    forall i | 0 <= i < |b|
      ensures b[i].amount == AmountSum(Filter(expenses, InCategory(b[i].category)))
      ensures b[i].percentage == Some(Percentage(b[i].amount, total))
    {
      assert b[i] in multiset(rows);
      RowOfGroup(expenses, b[i]);
    }
    SumByPermutation(rows, b, AmountOf);
    RowsTotal(Group(expenses), total);
    GroupTotal(expenses);
  }

  /** Rounding each share moves the sum of the percentages at most half a point
      per row away from the exact share of the whole. */
  lemma {:induction false} PercentageDrift(m: CategoryMap, total: real)
    requires total > 0.0
    ensures var drift := SumBy(WithPercentages(m, total), PercentOf) - SumBy(m, EntryValue) / total * 100.0;
      -(|m| as real) / 2.0 <= drift <= (|m| as real) / 2.0
    decreases |m|
  {
    if m != [] {
      var front, last := m[..|m| - 1], m[|m| - 1];
      PercentageDrift(front, total);
      var rows := WithPercentages(m, total);
      assert rows[..|m| - 1] == WithPercentages(front, total);
      var p, e := SumBy(WithPercentages(front, total), PercentOf), SumBy(front, EntryValue);
      var q := Percentage(last.1, total) as real;
      assert SumBy(rows, PercentOf) == p + q by {
        assert PercentOf(rows[|m| - 1]) == q;
      }
      assert SumBy(m, EntryValue) == e + last.1;
      PercentageBounds(last.1, total);
      ShareOfSum(e, last.1, total);
      var a, b := e / total * 100.0, last.1 / total * 100.0;
      assert -(|front| as real) / 2.0 <= p - a <= (|front| as real) / 2.0;
      assert b - 0.5 < q <= b + 0.5;
      assert (e + last.1) / total * 100.0 == a + b;
    }
  }

  /** The share of a sum is the sum of the shares. */
  lemma ShareOfSum(a: real, b: real, total: real)
    requires total > 0.0
    ensures (a + b) / total * 100.0 == a / total * 100.0 + b / total * 100.0
  {
  }

  /** With a positive total the percentages add up to 100 give or take half a
      point per row; with no expenses there are no rows. */
  lemma BreakdownPercentagesNear100(txs: seq<Transaction>)
    ensures var total := AmountSum(Filter(txs, IsExpense));
      total > 0.0 ==>
        var n := |Breakdown(txs)| as real;
        100.0 - n / 2.0 <= SumBy(Breakdown(txs), PercentOf) <= 100.0 + n / 2.0
    ensures Filter(txs, IsExpense) == [] ==> Breakdown(txs) == []
  {
    var expenses := Filter(txs, IsExpense);
    var total := AmountSum(expenses);
    var g := Group(expenses);
    var rows := WithPercentages(g, total);
    SortDescSortedPermutation(rows, AmountOf);
    if total > 0.0 {
      SumByPermutation(rows, Breakdown(txs), PercentOf);
      GroupTotal(expenses);
      PercentageDrift(g, total);
      WholeShare(total, SumBy(g, EntryValue));
    }
  }

  lemma WholeShare(total: real, sum: real)
    requires total > 0.0 && sum == total
    ensures sum / total * 100.0 == 100.0
  {
  }

  // ---------------------------------------------------------------------------
  // Recent transactions and the whole response

  /** Lines 85-87: the array sorted in place by date, latest first, then its first five. */
  method RecentTransactions(a: array<Transaction>) returns (recent: seq<Transaction>)
    modifies a
    ensures a[..] == SortDesc(old(a[..]), TxTime)
    ensures recent == a[..Min(5, a.Length)]
  {
    SortInPlace(a, TxTime);
    recent := a[..Min(5, a.Length)];
  }

  /** In a list sorted latest first, what comes before position `k` is no
      earlier than what comes after it. */
  lemma PrefixIsLatest(sorted: seq<Transaction>, k: nat, x: Transaction, y: Transaction)
    requires SortedDesc(sorted, TxTime) && k <= |sorted|
    requires x in sorted[..k] && y in sorted[k..]
    ensures TxTime(x) >= TxTime(y)
  {
    var i :| 0 <= i < k && sorted[..k][i] == x;
    var j :| 0 <= j < |sorted| - k && sorted[k..][j] == y;
    assert sorted[i] == x && sorted[k + j] == y;
  }

  /** The slice holds `min(5, n)` of the input's transactions, latest first, and
      none of the transactions left out is later than one kept. */
  lemma RecentAreLatest(txs: seq<Transaction>)
    ensures var sorted := SortDesc(txs, TxTime);
      var recent := sorted[..Min(5, |txs|)];
      && |recent| == Min(5, |txs|)
      && multiset(recent) <= multiset(txs)
      && SortedDesc(recent, TxTime)
      && forall x, y :: x in recent && y in multiset(txs) - multiset(recent) ==> TxTime(x) >= TxTime(y)
  {
    var sorted := SortDesc(txs, TxTime);
    SortDescSortedPermutation(txs, TxTime);
    SortedPrefix(sorted, Min(5, |txs|));
  }

  lemma SortedPrefix(sorted: seq<Transaction>, k: nat)
    requires SortedDesc(sorted, TxTime) && k <= |sorted|
    ensures multiset(sorted[..k]) <= multiset(sorted)
    ensures SortedDesc(sorted[..k], TxTime)
    ensures forall x, y :: x in sorted[..k] && y in multiset(sorted) - multiset(sorted[..k]) ==> TxTime(x) >= TxTime(y)
  {
    var recent, rest := sorted[..k], sorted[k..];
    assert sorted == recent + rest;
    assert multiset(sorted) == multiset(recent) + multiset(rest);
    forall x, y | x in recent && y in multiset(sorted) - multiset(recent)
      ensures TxTime(x) >= TxTime(y)
    {
      assert y in multiset(rest);
      PrefixIsLatest(sorted, k, x, y);
    }
  }

  /** The JSON body of the route. */
  datatype Report = Report(
    monthlyExpenses: seq<MonthlyExpense>,
    categoryBreakdown: seq<CategoryExpense>,
    recentTransactions: seq<Transaction>,
    totalTransactions: nat,
    totalExpenses: real,
    totalIncome: real)

  /** The whole of `GET`, over the transactions as read from the store and the
      current date. `transactions` ends up sorted latest first, as the route's
      in-place sort leaves it; the income is summed after that sort. */
  method ComputeAnalytics(transactions: array<Transaction>, now: Date) returns (report: Report)
    modifies transactions
    ensures transactions[..] == SortDesc(old(transactions[..]), TxTime)
    ensures var txs := old(transactions[..]);
      && |report.monthlyExpenses| == 6
      && (forall k :: 0 <= k < 6 ==> report.monthlyExpenses[k] == Bucket(txs, Window(now)[k]))
      && report.categoryBreakdown == Breakdown(txs)
      && report.recentTransactions == SortDesc(txs, TxTime)[..Min(5, |txs|)]
      && report.totalTransactions == |txs|
      && report.totalExpenses == AmountSum(Filter(txs, IsExpense))
      && report.totalIncome == AmountSum(Filter(txs, IsIncome))
  {
    ghost var txs := transactions[..];
    var monthly := MonthlyExpenseSeries(transactions[..], now);
    var breakdown, totalExpenses := CategoryBreakdown(transactions[..]);
    var recent := RecentTransactions(transactions);
    var totalIncome := AmountSum(Filter(transactions[..], IsIncome));
    SortDescSortedPermutation(txs, TxTime);
    FilterPermutation(txs, transactions[..], IsIncome);
    SumByPermutation(Filter(txs, IsIncome), Filter(transactions[..], IsIncome), TxAmount);
    report := Report(monthly, breakdown, recent, transactions.Length, totalExpenses, totalIncome);
  }

  /** With no transactions every bucket is zero and there is nothing to break down. */
  lemma NoTransactions(now: Date)
    ensures forall k :: 0 <= k < 6 ==> Bucket([], Window(now)[k]).amount == 0.0
    ensures Breakdown([]) == []
    ensures AmountSum(Filter([], IsExpense)) == 0.0 && AmountSum(Filter([], IsIncome)) == 0.0
  {
  }
}
