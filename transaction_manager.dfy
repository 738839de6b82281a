/** The transaction form and its manager (src/components/TransactionManager.tsx):
    the fields a form opens with, the two checks its submit handler runs before
    handing the data on, and whether the manager saves with POST or PUT. The
    date is held already parsed and "today" is a parameter. */
module TransactionManager {
  import opened Types
  import opened Text
  import opened FinanceUtils

  /** The form's fields. The amount input is `required`, so on submit it holds a
      number; it is empty only while a new transaction has none yet. */
  datatype TransactionFields = TransactionFields(
    amount: Option<real>,
    date: Date,
    description: string,
    kind: TxType,
    category: string)

  /** What `onSubmit` receives: the fields with the amount parsed. */
  datatype TransactionData = TransactionData(
    amount: real,
    date: Date,
    description: string,
    kind: TxType,
    category: string)

  /** Lines 39-45: an edited transaction's own fields, or an empty amount, today,
      an empty description, an expense and the category "Other" for a new one. */
  function InitialTransactionFields(transaction: Option<Transaction>, today: Date): (f: TransactionFields)
    ensures transaction.None? ==> f == TransactionFields(None, today, "", Expense, OTHER)
    ensures transaction.Some? ==>
      && f.amount == Some(transaction.value.amount)
      && f.date == transaction.value.date
      && f.description == transaction.value.description
      && f.kind == transaction.value.kind
    ensures transaction.Some? && transaction.value.category.Some? && transaction.value.category.value != "" ==>
      f.category == transaction.value.category.value
    ensures f.category != ""
  {
    match transaction
    case None => TransactionFields(None, today, "", Expense, OTHER)
    case Some(t) => TransactionFields(Some(t.amount), t.date, t.description, t.kind, CategoryOrOther(t.category))
  }

  /** Lines 50-74: a non-positive amount is refused first, then a description
      that is blank once trimmed; each refusal shows exactly one message. */
  function HandleSubmit(f: TransactionFields): (r: FormOutcome<TransactionData>)
    requires f.amount.Some?
    ensures r.Rejected? <==> f.amount.value <= 0.0 || IsBlank(f.description)
    ensures f.amount.value <= 0.0 ==> r == Rejected(["Amount must be greater than 0"])
    ensures f.amount.value > 0.0 && IsBlank(f.description) ==> r == Rejected(["Description is required"])
    ensures r.Submitted? ==> r.data == TransactionData(f.amount.value, f.date, f.description, f.kind, f.category)
  {
    var amount := f.amount.value;
    if amount <= 0.0 then Rejected(["Amount must be greater than 0"])
    else if IsBlank(f.description) then Rejected(["Description is required"])
    else Submitted(TransactionData(amount, f.date, f.description, f.kind, f.category))
  }

  /** Lines 285-299: an edited transaction is PUT back with its id, a new one POSTed without. */
  function SaveTransactionRequest(editing: Option<Transaction>, data: TransactionData): (r: SaveRequest<TransactionData>)
    ensures r.data == data
    ensures r.verb == Put <==> editing.Some?
    ensures editing.Some? ==> r.id == editing.value.id
    ensures editing.None? ==> r.id.None?
  {
    match editing
    case Some(t) => SaveRequest(Put, t.id, data)
    case None => SaveRequest(Post, None, data)
  }

  /** The request body the route's validator sees for submitted form data. */
  function AsInput(d: TransactionData): TransactionInput
  {
    TransactionInput(Some(d.amount), ParsedDate(d.date), Some(d.description), Some(TypeName(d.kind)))
  }

  /** Whatever the form submits passes the server's validation. */
  lemma SubmittedIsAcceptable(f: TransactionFields)
    requires f.amount.Some? && HandleSubmit(f).Submitted?
    ensures Acceptable(AsInput(HandleSubmit(f).data))
    ensures ValidationErrors(AsInput(HandleSubmit(f).data)) == []
  {
    var x := AsInput(HandleSubmit(f).data);
    TypeNameRoundTrip(f.kind);
    ValidationErrorsOrdered(x);
  }

  /** The form's message is one the server would also report for the same
      fields, though the server reports every failing check and the form only
      the first. */
  lemma RejectionAgreesWithServer(f: TransactionFields)
    requires f.amount.Some? && HandleSubmit(f).Rejected?
    ensures var x := TransactionInput(f.amount, ParsedDate(f.date), Some(f.description), Some(TypeName(f.kind)));
      && |HandleSubmit(f).errors| == 1
      && HandleSubmit(f).errors[0] in Messages(ValidationErrors(x))
      && HandleSubmit(f).errors[0] == Messages(ValidationErrors(x))[0]
  {
    var x := TransactionInput(f.amount, ParsedDate(f.date), Some(f.description), Some(TypeName(f.kind)));
    TypeNameRoundTrip(f.kind);
    var errors := ValidationErrors(x);
    assert errors == AmountErrors(x) + DateErrors(x) + DescriptionErrors(x) + TypeErrors(x);
    assert DateErrors(x) == [] && TypeErrors(x) == [];
    if f.amount.value <= 0.0 {
      assert errors[0] == AmountError;
    } else {
      assert errors == [DescriptionRequired];
    }
    var messages := Messages(errors);
    assert messages[0] == errors[0].Message() && messages[0] in messages;
  }

  /** Editing a transaction and submitting it unchanged sends back its own fields,
      with the category "Other" when it had none. */
  lemma ResubmitUnchanged(t: Transaction, today: Date)
    requires t.amount > 0.0 && !IsBlank(t.description)
    ensures var r := HandleSubmit(InitialTransactionFields(Some(t), today));
      && r.Submitted?
      && r.data == TransactionData(t.amount, t.date, t.description, t.kind, CategoryOrOther(t.category))
  {
  }
}
