/** The budgets API (src/app/api/budgets/route.ts) over an in-memory table:
    listing with an optional (month, year) filter, creating a budget unless
    one exists for the same category, month and year, patching and deleting
    one. The server clock is the parameter `now`. */
module BudgetsRoute {
  import opened Types
  import opened Text
  import opened Seqs
  import opened FinanceUtils
  import opened Tables

  function BudgetId(b: Budget): Option<Id>
  {
    b.id
  }

  /** `searchParams.get(name)` is truthy: present and not empty. */
  predicate Given(p: Option<string>)
  {
    p.Some? && p.value != ""
  }

  /** The Mongo query `{ month, year: parseInt(year) }`: a year that does not
      parse (NaN) matches no budget. */
  function MatchesPeriod(month: string, year: string): Budget -> bool
  {
    (b: Budget) => b.month == month && ParseInt(year) == Some(b.year)
  }

  /** GET, lines 12-17: filtered by month and year only when both are given,
      otherwise every budget, in insertion order either way. */
  function Query(records: seq<Budget>, month: Option<string>, year: Option<string>): (r: seq<Budget>)
    ensures !(Given(month) && Given(year)) ==> r == records
    ensures Given(month) && Given(year) ==>
      && (forall i :: 0 <= i < |r| ==> r[i] in records && r[i].month == month.value && ParseInt(year.value) == Some(r[i].year))
      && (forall i :: 0 <= i < |records| && records[i].month == month.value && ParseInt(year.value) == Some(records[i].year) ==> records[i] in r)
  {
    if Given(month) && Given(year) then Filter(records, MatchesPeriod(month.value, year.value)) else records
  }

  /** The views ask for the current month by its full name and the current year
      in decimal; the answer is exactly the budgets of that month and year. */
  lemma ViewQuery(records: seq<Budget>, now: Date)
    ensures Query(records, Some(MONTH_NAMES[now.month]), Some(IntToString(now.year)))
         == Filter(records, (b: Budget) => b.month == MONTH_NAMES[now.month] && b.year == now.year)
  {
    var month, year := MONTH_NAMES[now.month], IntToString(now.year);
    ViewPeriodGiven(now);
    assert Query(records, Some(month), Some(year)) == Filter(records, MatchesPeriod(month, year));
    ParseIntRoundTrip(now.year);
    var p, q := MatchesPeriod(month, year), (b: Budget) => b.month == month && b.year == now.year;
    forall i | 0 <= i < |records|
      ensures p(records[i]) == q(records[i])
    {
    }
    FilterAgreeing(records, p, q);
  }

  /** Both query parameters the views send are non-empty. */
  lemma ViewPeriodGiven(now: Date)
    ensures Given(Some(MONTH_NAMES[now.month])) && Given(Some(IntToString(now.year)))
  {
    MonthTables();
    ParseIntRoundTrip(now.year);
    assert ParseInt("") == None;
  }

  /** The key the create handler keeps unique. */
  function PeriodKey(b: Budget): (string, string, int)
  {
    (b.category, b.month, b.year)
  }

  /** No two budgets share category, month and year. */
  predicate UniquePeriods(records: seq<Budget>)
  {
    forall i, j :: 0 <= i < j < |records| ==> PeriodKey(records[i]) != PeriodKey(records[j])
  }

  /** The `findOne` of lines 35-39. */
  predicate Exists(records: seq<Budget>, data: BudgetData)
  {
    exists i :: 0 <= i < |records| && PeriodKey(records[i]) == (data.category, data.month, data.year)
  }

  /** Lines 48-56: the body with both timestamps and the inserted id. */
  function NewBudget(data: BudgetData, id: Id, now: Timestamp): (b: Budget)
    ensures PeriodKey(b) == (data.category, data.month, data.year) && b.amount == data.amount
    ensures b.id == Some(id) && b.createdAt == Some(now) && b.updatedAt == Some(now)
  {
    Budget(Some(id), data.category, data.amount, data.month, data.year, Some(now), Some(now))
  }

  /** The PUT body: the `_id` and whichever fields it carries. */
  datatype BudgetPatch = BudgetPatch(
    id: Option<Id>,
    category: Option<string>,
    amount: Option<real>,
    month: Option<string>,
    year: Option<int>,
    createdAt: Option<Timestamp>)

  /** The form's data sent back for an edit, with the budget's id. */
  function PatchOf(id: Option<Id>, data: BudgetData): BudgetPatch
  {
    BudgetPatch(id, Some(data.category), Some(data.amount), Some(data.month), Some(data.year), None)
  }

  /** Lines 79-88: `$set` of the supplied fields and a fresh `updatedAt`. */
  function Patched(b: Budget, p: BudgetPatch, now: Timestamp): (r: Budget)
    ensures r.id == b.id && r.updatedAt == Some(now)
    ensures r.category == (if p.category.Some? then p.category.value else b.category)
    ensures r.amount == (if p.amount.Some? then p.amount.value else b.amount)
    ensures r.month == (if p.month.Some? then p.month.value else b.month)
    ensures r.year == (if p.year.Some? then p.year.value else b.year)
    ensures r.createdAt == (if p.createdAt.Some? then p.createdAt else b.createdAt)
  {
    Budget(
      b.id,
      if p.category.Some? then p.category.value else b.category,
      if p.amount.Some? then p.amount.value else b.amount,
      if p.month.Some? then p.month.value else b.month,
      if p.year.Some? then p.year.value else b.year,
      if p.createdAt.Some? then p.createdAt else b.createdAt,
      Some(now))
  }

  /** A patch that supplies nothing only refreshes `updatedAt`. */
  lemma EmptyPatch(b: Budget, id: Option<Id>, now: Timestamp)
    ensures Patched(b, BudgetPatch(id, None, None, None, None, None), now) == b.(updatedAt := Some(now))
  {
  }

  /** Saving the edit form's data back gives the budget exactly the form's
      category, amount, month and year, keeping its id and creation time. */
  lemma EditFormPatch(b: Budget, data: BudgetData, now: Timestamp)
    ensures var r := Patched(b, PatchOf(b.id, data), now);
      && PeriodKey(r) == (data.category, data.month, data.year) && r.amount == data.amount
      && r.id == b.id && r.createdAt == b.createdAt
  {
  }

  class BudgetStore {
    /** The collection, in insertion order. */
    var records: seq<Budget>
    /** The id the next inserted budget receives. */
    var nextId: Id

    predicate Valid()
      reads this
    {
      Keyed(records, BudgetId, nextId)
    }

    constructor ()
      ensures records == [] && nextId == 0
      ensures Valid() && UniquePeriods(records)
    {
      records := [];
      nextId := 0;
    }

    /** GET, lines 5-19. */
    method Get(month: Option<string>, year: Option<string>) returns (response: Response<seq<Budget>>)
      ensures response == Ok(Query(records, month, year))
    {
      response := Ok(Query(records, month, year));
    }

    /** POST, lines 29-56: a budget for a (category, month, year) already
        present is refused and nothing is stored; otherwise exactly the body
        with a new id and both timestamps is appended and returned with status
        200. The table then still has at most one budget per period. */
    method Post(data: BudgetData, now: Timestamp) returns (response: Response<Budget>)
      requires Valid()
      modifies this
      ensures Valid()
      ensures old(UniquePeriods(records)) ==> UniquePeriods(records)
      ensures old(Exists(records, data)) ==>
        && response == BadRequest("Budget already exists for this category and month", [])
        && records == old(records) && nextId == old(nextId)
      ensures !old(Exists(records, data)) ==>
        && response == Ok(NewBudget(data, old(nextId), now))
        && records == old(records) + [NewBudget(data, old(nextId), now)]
        && nextId == old(nextId) + 1
    {
      if Exists(records, data) {
        response := BadRequest("Budget already exists for this category and month", []);
        return;
      }
      var b := NewBudget(data, nextId, now);
      KeyedAppend(records, BudgetId, nextId, b);
      ghost var before := records;
      records := records + [b];
      nextId := nextId + 1;
      assert forall i :: 0 <= i < |before| ==> PeriodKey(records[i]) != PeriodKey(b) && records[i] == before[i];
      response := Ok(b);
    }

    /** PUT, lines 66-94: no id gives 400, an id no record has gives 404;
        otherwise that budget alone gets the supplied fields and a fresh
        `updatedAt`. No check for an existing budget of the same period is made. */
    method Put(patch: BudgetPatch, now: Timestamp) returns (response: Response<bool>)
      requires Valid()
      modifies this
      ensures Valid()
      ensures nextId == old(nextId)
      ensures patch.id.None? ==> response == BadRequest("Budget ID is required", []) && records == old(records)
      ensures patch.id.Some? && IndexOfId(old(records), BudgetId, patch.id.value).None? ==>
        response == NotFound("Budget not found") && records == old(records)
      ensures patch.id.Some? && IndexOfId(old(records), BudgetId, patch.id.value).Some? ==>
        var i := IndexOfId(old(records), BudgetId, patch.id.value).value;
        && records == old(records)[i := Patched(old(records)[i], patch, now)]
        && response == Ok(true)
    {
      if patch.id.None? {
        response := BadRequest("Budget ID is required", []);
        return;
      }
      var found := IndexOfId(records, BudgetId, patch.id.value);
      if found.None? {
        response := NotFound("Budget not found");
        return;
      }
      var i := found.value;
      var b := Patched(records[i], patch, now);
      KeyedReplace(records, BudgetId, nextId, i, b);
      records := records[i := b];
      response := Ok(true);
    }

    /** DELETE, lines 104-126: no id gives 400, an id no record has gives 404,
        otherwise exactly the budget with that id is removed. */
    method Delete(id: Option<Id>) returns (response: Response<bool>)
      requires Valid()
      modifies this
      ensures Valid()
      ensures nextId == old(nextId)
      ensures old(UniquePeriods(records)) ==> UniquePeriods(records)
      ensures id.None? ==> response == BadRequest("Budget ID is required", []) && records == old(records)
      ensures id.Some? && IndexOfId(old(records), BudgetId, id.value).None? ==>
        response == NotFound("Budget not found") && records == old(records)
      ensures id.Some? && IndexOfId(old(records), BudgetId, id.value).Some? ==>
        && records == RemoveAt(old(records), IndexOfId(old(records), BudgetId, id.value).value)
        && (forall k :: 0 <= k < |records| ==> records[k].id != id)
        && response == Ok(true)
    {
      if id.None? {
        response := BadRequest("Budget ID is required", []);
        return;
      }
      var found := IndexOfId(records, BudgetId, id.value);
      if found.None? {
        response := NotFound("Budget not found");
        return;
      }
      KeyedRemove(records, BudgetId, nextId, found.value);
      RemovePreservesUnique(records, found.value);
      records := RemoveAt(records, found.value);
      response := Ok(true);
    }
  }

  lemma RemovePreservesUnique(records: seq<Budget>, i: nat)
    requires i < |records|
    ensures UniquePeriods(records) ==> UniquePeriods(RemoveAt(records, i))
  {
    var r := RemoveAt(records, i);
    if UniquePeriods(records) {
      forall a, b | 0 <= a < b < |r|
        ensures PeriodKey(r[a]) != PeriodKey(r[b])
      {
        var a', b' := if a < i then a else a + 1, if b < i then b else b + 1;
        assert r[a] == records[a'] && r[b] == records[b'] && a' < b';
      }
    }
  }

  /** Unlike a create, an update can give a budget the period of another one:
      two budgets of different categories become two of the same. */
  lemma PutCanDuplicatePeriod()
    ensures var food := Budget(Some(0), "Food & Dining", 300.0, "March", 2024, None, None);
      var travel := Budget(Some(1), "Travel", 500.0, "March", 2024, None, None);
      var before := [food, travel];
      var patch := BudgetPatch(Some(1), Some("Food & Dining"), None, None, None, None);
      && UniquePeriods(before) && Keyed(before, BudgetId, 2)
      && IndexOfId(before, BudgetId, 1) == Some(1)
      && !UniquePeriods(before[1 := Patched(travel, patch, 10)])
  {
    var food := Budget(Some(0), "Food & Dining", 300.0, "March", 2024, None, None);
    var travel := Budget(Some(1), "Travel", 500.0, "March", 2024, None, None);
    var before := [food, travel];
    var patch := BudgetPatch(Some(1), Some("Food & Dining"), None, None, None, None);
    var after := before[1 := Patched(travel, patch, 10)];
    assert PeriodKey(after[0]) == PeriodKey(after[1]);
  }

  /** Creating the same budget twice: the second request is refused and the
      table keeps the first budget only. */
  method PostTwice(data: BudgetData, now: Timestamp, later: Timestamp) returns (first: Response<Budget>, second: Response<Budget>, stored: seq<Budget>)
    ensures first.Ok? && first.body.id == Some(0)
    ensures second == BadRequest("Budget already exists for this category and month", [])
    ensures stored == [first.body]
  {
    var store := new BudgetStore();
    first := store.Post(data, now);
    assert Exists(store.records, data) by {
      assert PeriodKey(store.records[0]) == (data.category, data.month, data.year);
    }
    second := store.Post(data, later);
    stored := store.records;
  }
}
