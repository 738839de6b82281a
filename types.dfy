/** The records of the finance tracker (src/types/index.ts) and the few shapes
    every other module shares: optional values, calendar dates, HTTP outcomes. */
module Types {

  datatype Option<+T> = None | Some(value: T)

  /** A MongoDB ObjectId, abstracted to a natural number. */
  type Id = nat

  /** A reading of the server clock (createdAt / updatedAt). */
  type Timestamp = int

  /** JavaScript's Date.getMonth(): 0 is January, 11 is December. */
  type MonthIndex = m: int | 0 <= m < 12

  /** JavaScript's Date.getDate(). */
  type DayOfMonth = d: int | 1 <= d <= 31 witness 1

  /** A calendar date as the Date getters report it; parsing and time zones are not modelled. */
  datatype Date = Date(year: int, month: MonthIndex, day: DayOfMonth)

  /** A (year, month) pair: one bucket of the monthly series, one budget period. */
  datatype YearMonth = YearMonth(year: int, month: MonthIndex)

  /** Months since year 0, so that consecutive calendar months differ by one. */
  function MonthOrdinal(ym: YearMonth): int
  {
    ym.year * 12 + ym.month
  }

  function YearMonthOf(d: Date): YearMonth
  {
    YearMonth(d.year, d.month)
  }

  /** The instant `new Date(t.date).getTime()` orders by: a key that grows with
      the date in calendar order. */
  function TimeOf(d: Date): int
  {
    MonthOrdinal(YearMonthOf(d)) * 32 + d.day
  }

  /** Calendar order on dates: year first, then month, then day. */
  predicate Before(d: Date, e: Date)
  {
    d.year < e.year
    || (d.year == e.year && d.month < e.month)
    || (d.year == e.year && d.month == e.month && d.day < e.day)
  }

  lemma TimeOfOrdersDates(d: Date, e: Date)
    ensures TimeOf(d) < TimeOf(e) <==> Before(d, e)
  {
    if d.year < e.year {
      assert MonthOrdinal(YearMonthOf(d)) + 1 <= MonthOrdinal(YearMonthOf(e));
    } else if d.year > e.year {
      assert MonthOrdinal(YearMonthOf(e)) + 1 <= MonthOrdinal(YearMonthOf(d));
    }
  }

  /** `type: "income" | "expense"` of a stored transaction. */
  datatype TxType = Income | Expense

  /** The string the JSON record carries for a transaction type. */
  function TypeName(k: TxType): string
  {
    match k
    case Income => "income"
    case Expense => "expense"
  }

  /** Reads a type string back; anything but the two names has no type. */
  function ParseType(s: string): (r: Option<TxType>)
    ensures r.Some? <==> s == "income" || s == "expense"
    ensures r.Some? ==> TypeName(r.value) == s
  {
    if s == "income" then Some(Income)
    else if s == "expense" then Some(Expense)
    else None
  }

  lemma TypeNameRoundTrip(k: TxType)
    ensures ParseType(TypeName(k)) == Some(k)
    ensures TypeName(k) == "income" || TypeName(k) == "expense"
  {
  }

  /** A recorded money movement. The category is optional in the record shape. */
  datatype Transaction = Transaction(
    id: Option<Id>,
    amount: real,
    date: Date,
    description: string,
    category: Option<string>,
    kind: TxType,
    createdAt: Option<Timestamp>,
    updatedAt: Option<Timestamp>)

  /** One bucket of the trailing monthly series: a "Mmm yyyy" label and a total. */
  datatype MonthlyExpense = MonthlyExpense(month: string, amount: real)

  /** One row of the category breakdown; the percentage is optional in the shape. */
  datatype CategoryExpense = CategoryExpense(category: string, amount: real, percentage: Option<int>)

  /** A spending cap for one category in one month (a full month name) of one year. */
  datatype Budget = Budget(
    id: Option<Id>,
    category: string,
    amount: real,
    month: string,
    year: int,
    createdAt: Option<Timestamp>,
    updatedAt: Option<Timestamp>)

  /** A budget as the form sends it and the create route receives it (`Omit<Budget, "_id">`
      without the timestamps, which the route sets). */
  datatype BudgetData = BudgetData(category: string, amount: real, month: string, year: int)

  const OTHER: string := "Other"

  /** The fixed category vocabulary, in the order the forms list it. */
  const CATEGORIES: seq<string> := [
    "Food & Dining",
    "Transportation",
    "Shopping",
    "Entertainment",
    "Bills & Utilities",
    "Health & Fitness",
    "Travel",
    "Education",
    "Business",
    "Personal Care",
    "Gifts & Donations",
    "Investments",
    "Other"
  ]

  predicate Distinct<T(==)>(s: seq<T>)
  {
    forall i, j :: 0 <= i < j < |s| ==> s[i] != s[j]
  }

  lemma CategoriesVocabulary()
    ensures |CATEGORIES| == 13
    ensures Distinct(CATEGORIES)
    ensures OTHER in CATEGORIES && CATEGORIES[12] == OTHER
  {
  }

  /** `category || "Other"`: an absent or empty category reads as "Other". */
  function CategoryOrOther(c: Option<string>): (r: string)
    ensures r != ""
    ensures c.Some? && c.value != "" ==> r == c.value
    ensures c == None || c == Some("") ==> r == OTHER
  {
    match c
    case Some(s) => if s != "" then s else OTHER
    case None => OTHER
  }

  /** What a form submit ends in: the error list it shows, or the data it hands on. */
  datatype FormOutcome<T> = Rejected(errors: seq<string>) | Submitted(data: T)

  /** How a form saves: a new record is POSTed, an edited one PUT back with its id. */
  datatype HttpMethod = Post | Put

  /** The request a manager sends when its form is submitted: the method, the
      `_id` the body carries (absent for a new record) and the form data. */
  datatype SaveRequest<T> = SaveRequest(verb: HttpMethod, id: Option<Id>, data: T)

  /** The outcome of a route handler, with the body it serialises. */
  datatype Response<T> =
    | Ok(body: T)
    | Created(body: T)
    | BadRequest(error: string, details: seq<string>)
    | NotFound(error: string)
  {
    function Status(): (code: int)
      ensures 200 <= code < 500
      ensures code < 300 <==> Ok? || Created?
    {
      match this
      case Ok(_) => 200
      case Created(_) => 201
      case BadRequest(_, _) => 400
      case NotFound(_) => 404
    }
  }
}
