/** The transactions API (src/app/api/transactions/route.ts) over an in-memory
    table: listing by date, and creating, updating and deleting a record, each
    with the outcome the handler answers. The server clock is the parameter
    `now`. */
module TransactionsRoute {
  import opened Types
  import opened Text
  import opened FinanceUtils
  import opened Sorting
  import opened Amounts
  import opened Tables

  function TxId(t: Transaction): Option<Id>
  {
    t.id
  }

  /** A request body: the `_id` (absent or empty reads as None), the four
      validated fields and the optional category. */
  datatype TransactionBody = TransactionBody(id: Option<Id>, input: TransactionInput, category: Option<string>)

  /** The record the POST and PUT handlers write for an acceptable body: the
      amount parsed, the date, description and type as sent, and the category
      "Other" when none or an empty one was sent. */
  function StoredRecord(x: TransactionInput, category: Option<string>, id: Option<Id>,
                        createdAt: Option<Timestamp>, updatedAt: Timestamp): (t: Transaction)
    requires Acceptable(x)
    ensures t.id == id && t.createdAt == createdAt && t.updatedAt == Some(updatedAt)
    ensures Some(t.amount) == x.amount && t.amount > 0.0
    ensures x.date == ParsedDate(t.date)
    ensures Some(t.description) == x.description && !IsBlank(t.description)
    ensures Some(TypeName(t.kind)) == x.kind
    ensures t.category.Some? && t.category.value != ""
    ensures category.Some? && category.value != "" ==> t.category == category
    ensures category.None? || category == Some("") ==> t.category == Some(OTHER)
  {
    var kind := ParseType(x.kind.value).value;
    Transaction(id, x.amount.value, x.date.date, x.description.value, Some(CategoryOrOther(category)),
                kind, createdAt, Some(updatedAt))
  }

  class TransactionStore {
    /** The collection, in insertion order. */
    var records: seq<Transaction>
    /** The id the next inserted record receives. */
    var nextId: Id

    predicate Valid()
      reads this
    {
      Keyed(records, TxId, nextId)
    }

    constructor ()
      ensures records == [] && nextId == 0
      ensures Valid()
    {
      records := [];
      nextId := 0;
    }

    /** GET, lines 7-16: every record, latest date first. MongoDB leaves the
        order of equal dates open; the model keeps them in insertion order. */
    method Get() returns (response: Response<seq<Transaction>>)
      ensures response.Ok?
      ensures SortedDesc(response.body, TxTime)
      ensures multiset(response.body) == multiset(records)
      ensures response.body == SortDesc(records, TxTime)
    {
      SortDescSortedPermutation(records, TxTime);
      response := Ok(SortDesc(records, TxTime));
    }

    /** POST, lines 26-58: a body that fails validation is refused with the
        validator's messages and nothing is stored; otherwise exactly one
        record, with a fresh id and both timestamps set to `now`, is appended
        and returned with status 201. */
    method Post(body: TransactionBody, now: Timestamp) returns (response: Response<Transaction>)
      requires Valid()
      modifies this
      ensures Valid()
      ensures !Acceptable(body.input) ==>
        && response == BadRequest("Validation failed", Messages(ValidationErrors(body.input)))
        && records == old(records) && nextId == old(nextId)
      ensures Acceptable(body.input) ==>
        var t := StoredRecord(body.input, body.category, Some(old(nextId)), Some(now), now);
        && response == Created(t)
        && records == old(records) + [t]
        && nextId == old(nextId) + 1
    {
      var isValid, errors := ValidateTransaction(body.input);
      if !isValid {
        response := BadRequest("Validation failed", Messages(errors));
        return;
      }
      var t := StoredRecord(body.input, body.category, Some(nextId), Some(now), now);
      KeyedAppend(records, TxId, nextId, t);
      records := records + [t];
      nextId := nextId + 1;
      response := Created(t);
    }

    /** PUT, lines 68-113: the id is checked before the body is validated; an
        id no record has gives 404; otherwise that record alone gets the new
        fields and `updatedAt`, keeping its id and `createdAt`, and is returned. */
    method Put(body: TransactionBody, now: Timestamp) returns (response: Response<Transaction>)
      requires Valid()
      modifies this
      ensures Valid()
      ensures nextId == old(nextId)
      ensures body.id.None? ==>
        response == BadRequest("Transaction ID is required", []) && records == old(records)
      ensures body.id.Some? && !Acceptable(body.input) ==>
        && response == BadRequest("Validation failed", Messages(ValidationErrors(body.input)))
        && records == old(records)
      ensures body.id.Some? && Acceptable(body.input) && IndexOfId(old(records), TxId, body.id.value).None? ==>
        response == NotFound("Transaction not found") && records == old(records)
      ensures body.id.Some? && Acceptable(body.input) && IndexOfId(old(records), TxId, body.id.value).Some? ==>
        var i := IndexOfId(old(records), TxId, body.id.value).value;
        var t := StoredRecord(body.input, body.category, body.id, old(records)[i].createdAt, now);
        && records == old(records)[i := t]
        && response == Ok(t)
    {
      if body.id.None? {
        response := BadRequest("Transaction ID is required", []);
        return;
      }
      var isValid, errors := ValidateTransaction(body.input);
      if !isValid {
        response := BadRequest("Validation failed", Messages(errors));
        return;
      }
      var found := IndexOfId(records, TxId, body.id.value);
      if found.None? {
        response := NotFound("Transaction not found");
        return;
      }
      var i := found.value;
      var t := StoredRecord(body.input, body.category, body.id, records[i].createdAt, now);
      KeyedReplace(records, TxId, nextId, i, t);
      records := records[i := t];
      response := Ok(t);
    }

    /** DELETE, lines 123-147: no id gives 400, an id no record has gives 404,
        otherwise exactly the record with that id is removed. */
    method Delete(id: Option<Id>) returns (response: Response<string>)
      requires Valid()
      modifies this
      ensures Valid()
      ensures nextId == old(nextId)
      ensures id.None? ==> response == BadRequest("Transaction ID is required", []) && records == old(records)
      ensures id.Some? && IndexOfId(old(records), TxId, id.value).None? ==>
        response == NotFound("Transaction not found") && records == old(records)
      ensures id.Some? && IndexOfId(old(records), TxId, id.value).Some? ==>
        && records == RemoveAt(old(records), IndexOfId(old(records), TxId, id.value).value)
        && (forall k :: 0 <= k < |records| ==> records[k].id != id)
        && response == Ok("Transaction deleted successfully")
    {
      if id.None? {
        response := BadRequest("Transaction ID is required", []);
        return;
      }
      var found := IndexOfId(records, TxId, id.value);
      if found.None? {
        response := NotFound("Transaction not found");
        return;
      }
      KeyedRemove(records, TxId, nextId, found.value);
      records := RemoveAt(records, found.value);
      response := Ok("Transaction deleted successfully");
    }
  }

  /** The record a successful PUT writes is the one a POST of the same body
      would have stored, with the id and creation time the record already had. */
  lemma PutMatchesPost(body: TransactionBody, prior: Transaction, now: Timestamp, later: Timestamp)
    requires Acceptable(body.input)
    ensures var created := StoredRecord(body.input, body.category, prior.id, Some(now), now);
      var updated := StoredRecord(body.input, body.category, prior.id, prior.createdAt, later);
      && updated.(createdAt := Some(now), updatedAt := Some(now)) == created
      && updated.createdAt == prior.createdAt
  {
  }

  /** A new store, after one successful POST, lists exactly the created record,
      and after deleting it by its id is empty again. */
  method PostThenDelete(body: TransactionBody, now: Timestamp)
    returns (created: Transaction, listed: seq<Transaction>, remaining: seq<Transaction>)
    requires Acceptable(body.input)
    ensures created == StoredRecord(body.input, body.category, Some(0), Some(now), now)
    ensures listed == [created]
    ensures remaining == []
  {
    var store := new TransactionStore();
    var response := store.Post(body, now);
    created := response.body;
    var got := store.Get();
    listed := got.body;
    assert listed == [created];
    var deleted := store.Delete(Some(0));
    remaining := store.records;
  }
}
