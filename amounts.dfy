/** The `filter`/`reduce` building blocks the analytics route and both budget
    views share: a transaction's amount, its type, and the sum of amounts. */
module Amounts {
  import opened Types
  import opened Seqs

  function TxAmount(t: Transaction): real
  {
    t.amount
  }

  predicate IsExpense(t: Transaction)
  {
    t.kind == Expense
  }

  predicate IsIncome(t: Transaction)
  {
    t.kind == Income
  }

  /** `reduce((sum, t) => sum + t.amount, 0)`. */
  function AmountSum(txs: seq<Transaction>): real
  {
    SumBy(txs, TxAmount)
  }

  function Min(a: int, b: int): int
  {
    if a <= b then a else b
  }

  /** `new Date(t.date).getTime()`, as a sort key. */
  function TxTime(t: Transaction): real
  {
    TimeOf(t.date) as real
  }
}
