/** The helpers of src/lib/utils-finance.ts: the two date labels and the
    server-side transaction validator. */
module FinanceUtils {
  import opened Types
  import opened Text

  /** The three-letter month names of `formatDate` (and of the analytics series). */
  const MONTH_ABBREVIATIONS: seq<string> :=
    ["Jan", "Feb", "Mar", "Apr", "May", "Jun", "Jul", "Aug", "Sep", "Oct", "Nov", "Dec"]

  /** The full month names of `getMonthName` (and of the budget form's month list). */
  const MONTH_NAMES: seq<string> :=
    ["January", "February", "March", "April", "May", "June", "July",
     "August", "September", "October", "November", "December"]

  /** A table of twelve distinct month names, none of them empty or containing a space. */
  predicate IsMonthTable(names: seq<string>)
  {
    && |names| == 12
    && Distinct(names)
    && forall i :: 0 <= i < 12 ==> names[i] != [] && ' ' !in names[i]
  }

  lemma MonthTables()
    ensures IsMonthTable(MONTH_ABBREVIATIONS)
    ensures IsMonthTable(MONTH_NAMES)
  {
  }

  /** "<name of the month> <year>", the shape of both `getMonthName` and the
      analytics bucket labels. */
  function MonthLabel(names: seq<string>, ym: YearMonth): string
    requires |names| == 12
  {
    names[ym.month] + " " + IntToString(ym.year)
  }

  /** `formatDate`: "<3-letter month> <day>, <year>", e.g. "Mar 5, 2024". */
  function FormatDate(d: Date): string
  {
    MONTH_ABBREVIATIONS[d.month] + " " + NatToString(d.day) + ", " + IntToString(d.year)
  }

  /** `getMonthName`: "<full month name> <year>", e.g. "March 2024". */
  function GetMonthName(d: Date): string
  {
    MonthLabel(MONTH_NAMES, YearMonthOf(d))
  }

  // Reading the labels back, which shows that each label names exactly one date.

  function IndexOfChar(s: string, c: char): (r: Option<nat>)
    ensures r.Some? ==> r.value < |s| && s[r.value] == c && c !in s[..r.value]
    ensures r.None? ==> c !in s
  {
    if s == [] then None
    else if s[0] == c then Some(0)
    else
      match IndexOfChar(s[1..], c)
      case None => None
      case Some(k) =>
        assert s[..k + 1] == [s[0]] + s[1..][..k];
        Some(k + 1)
  }

  /** The position of `w` in a month table, if it is one of its names. */
  function IndexOfName(names: seq<string>, w: string): (r: Option<MonthIndex>)
    requires |names| == 12
    ensures r.Some? ==> names[r.value] == w
    ensures r.None? ==> w !in names
  {
    IndexFrom(names, w, 0)
  }

  function IndexFrom(names: seq<string>, w: string, from: nat): (r: Option<MonthIndex>)
    requires |names| == 12 && from <= 12
    ensures r.Some? ==> from <= r.value && names[r.value] == w
    ensures r.None? ==> w !in names[from..]
    decreases 12 - from
  {
    if from == 12 then None
    else if names[from] == w then Some(from)
    else IndexFrom(names, w, from + 1)
  }

  /** Splits "<name> <rest>" at its first space. */
  function SplitAtSpace(s: string): Option<(string, string)>
  {
    match IndexOfChar(s, ' ')
    case None => None
    case Some(k) => Some((s[..k], s[k + 1..]))
  }

  function ParseMonthLabel(names: seq<string>, s: string): Option<YearMonth>
    requires |names| == 12
  {
    match SplitAtSpace(s)
    case None => None
    case Some((name, rest)) =>
      match (IndexOfName(names, name), ParseInt(rest))
      case (Some(m), Some(y)) => Some(YearMonth(y, m))
      case _ => None
  }

  function ParseDateLabel(s: string): Option<Date>
  {
    match SplitAtSpace(s)
    case None => None
    case Some((name, rest)) =>
      var digits := LeadingDigits(rest);
      var after := rest[|digits|..];
      if |after| < 2 || after[..2] != ", " || !(1 <= DigitsValue(digits) <= 31) then None
      else
        match (IndexOfName(MONTH_ABBREVIATIONS, name), ParseInt(after[2..]))
        case (Some(m), Some(y)) => Some(Date(y, m, DigitsValue(digits)))
        case _ => None
  }

  lemma SplitAtSpaceOfLabel(name: string, rest: string)
    requires ' ' !in name
    ensures SplitAtSpace(name + " " + rest) == Some((name, rest))
  {
    var s := name + " " + rest;
    assert s[..|name|] == name && s[|name|] == ' ' && s[|name| + 1..] == rest;
    assert ' ' in s;
    var k := IndexOfChar(s, ' ').value;
    assert forall j :: 0 <= j < |name| ==> s[j] == name[j];
    assert forall j :: 0 <= j < k ==> s[..k][j] == s[j];
    assert k == |name|;
  }

  lemma NameIndex(names: seq<string>, m: MonthIndex)
    requires IsMonthTable(names)
    ensures IndexOfName(names, names[m]) == Some(m)
  {
    var r := IndexOfName(names, names[m]);
    assert r.Some? by { assert names[m] in names; }
  }

  /** A month label names exactly one (year, month). */
  lemma {:induction false} MonthLabelRoundTrip(names: seq<string>, ym: YearMonth)
    requires IsMonthTable(names)
    ensures ParseMonthLabel(names, MonthLabel(names, ym)) == Some(ym)
  {
    SplitAtSpaceOfLabel(names[ym.month], IntToString(ym.year));
    NameIndex(names, ym.month);
    ParseIntRoundTrip(ym.year);
  }

  lemma GetMonthNameRoundTrip(d: Date)
    ensures ParseMonthLabel(MONTH_NAMES, GetMonthName(d)) == Some(YearMonthOf(d))
  {
    MonthTables();
    MonthLabelRoundTrip(MONTH_NAMES, YearMonthOf(d));
  }

  lemma ParseDateTail(day: DayOfMonth, year: int)
    ensures var rest := NatToString(day) + ", " + IntToString(year);
      var digits := LeadingDigits(rest);
      && digits == NatToString(day)
      && DigitsValue(digits) == day
      && rest[|digits|..][..2] == ", "
      && rest[|digits|..][2..] == IntToString(year)
  {
    var d, y := NatToString(day), IntToString(year);
    var rest := d + ", " + y;
    assert rest == d + (", " + y);
    LeadingDigitsOfNumeral(d, ", " + y);
    NatToStringValue(day);
    assert rest[|d|..] == ", " + y;
  }

  /** `formatDate` loses nothing: its label reads back as the same date. */
  lemma {:induction false} FormatDateRoundTrip(d: Date)
    ensures ParseDateLabel(FormatDate(d)) == Some(d)
  {
    var name := MONTH_ABBREVIATIONS[d.month];
    var rest := NatToString(d.day) + ", " + IntToString(d.year);
    assert FormatDate(d) == name + " " + rest;
    MonthTables();
    SplitAtSpaceOfLabel(name, rest);
    NameIndex(MONTH_ABBREVIATIONS, d.month);
    ParseDateTail(d.day, d.year);
    ParseIntRoundTrip(d.year);
  }

  lemma FormatDateInjective(d: Date, e: Date)
    ensures FormatDate(d) == FormatDate(e) <==> d == e
  {
    FormatDateRoundTrip(d);
    FormatDateRoundTrip(e);
  }

  // validateTransaction

  /** The date of a request body: absent (or empty), present but not a date, or a date. */
  datatype DateField = MissingDate | UnparseableDate | ParsedDate(date: Date)

  /** The four fields `validateTransaction` looks at, as they arrive in a request body. */
  datatype TransactionInput = TransactionInput(
    amount: Option<real>,
    date: DateField,
    description: Option<string>,
    kind: Option<string>)

  /** The validator's checks, one per message it can report, in report order. */
  datatype ValidationError = AmountError | DateRequired | DateFormat | DescriptionRequired | TypeInvalid
  {
    /** The message pushed onto the `errors` array. */
    function Message(): string
    {
      match this
      case AmountError => "Amount must be greater than 0"
      case DateRequired => "Date is required"
      case DateFormat => "Invalid date format"
      case DescriptionRequired => "Description is required"
      case TypeInvalid => "Type must be either income or expense"
    }

    /** Where the check stands in the order the validator runs its checks. */
    function Rank(): nat
    {
      match this
      case AmountError => 0
      case DateRequired => 1
      case DateFormat => 2
      case DescriptionRequired => 3
      case TypeInvalid => 4
    }
  }

  lemma MessagesDistinct(e: ValidationError, f: ValidationError)
    ensures e.Message() == f.Message() <==> e == f
  {
    if e != f {
      assert |e.Message()| != |f.Message()|;
    }
  }

  function Messages(errors: seq<ValidationError>): (r: seq<string>)
    ensures |r| == |errors|
    ensures forall i :: 0 <= i < |errors| ==> r[i] == errors[i].Message()
  {
    seq(|errors|, i requires 0 <= i < |errors| => errors[i].Message())
  }

  /** `!amount || amount <= 0`. */
  predicate AmountRejected(x: TransactionInput)
  {
    x.amount == None || x.amount.value <= 0.0
  }

  /** `!description || description.trim().length === 0`. */
  predicate DescriptionRejected(x: TransactionInput)
  {
    x.description == None || IsBlank(x.description.value)
  }

  /** `!type || !["income", "expense"].includes(type)`. */
  predicate TypeRejected(x: TransactionInput)
  {
    x.kind == None || ParseType(x.kind.value) == None
  }

  predicate Acceptable(x: TransactionInput)
  {
    !AmountRejected(x) && x.date.ParsedDate? && !DescriptionRejected(x) && !TypeRejected(x)
  }

  /** The checks appear in the validator's fixed order, none twice. */
  predicate InReportOrder(errors: seq<ValidationError>)
  {
    forall i, j :: 0 <= i < j < |errors| ==> errors[i].Rank() < errors[j].Rank()
  }

  function AmountErrors(x: TransactionInput): seq<ValidationError>
  {
    if AmountRejected(x) then [AmountError] else []
  }

  function DateErrors(x: TransactionInput): seq<ValidationError>
  {
    match x.date
    case MissingDate => [DateRequired]
    case UnparseableDate => [DateFormat]
    case ParsedDate(_) => []
  }

  function DescriptionErrors(x: TransactionInput): seq<ValidationError>
  {
    if DescriptionRejected(x) then [DescriptionRequired] else []
  }

  function TypeErrors(x: TransactionInput): seq<ValidationError>
  {
    if TypeRejected(x) then [TypeInvalid] else []
  }

  /** The checks `validateTransaction` reports as failing for an input. */
  function ValidationErrors(x: TransactionInput): seq<ValidationError>
  {
    AmountErrors(x) + DateErrors(x) + DescriptionErrors(x) + TypeErrors(x)
  }

  /** Each check is reported exactly when its condition fails; the two date
      messages are never reported together. */
  lemma ValidationErrorsReported(x: TransactionInput)
    ensures var errors := ValidationErrors(x);
      && (AmountError in errors <==> AmountRejected(x))
      && (DateRequired in errors <==> x.date == MissingDate)
      && (DateFormat in errors <==> x.date == UnparseableDate)
      && (DescriptionRequired in errors <==> DescriptionRejected(x))
      && (TypeInvalid in errors <==> TypeRejected(x))
      && !(DateRequired in errors && DateFormat in errors)
  {
    var a, d, n, t := AmountErrors(x), DateErrors(x), DescriptionErrors(x), TypeErrors(x);
    InJoin(AmountError, a, d, n, t);
    InJoin(DateRequired, a, d, n, t);
    InJoin(DateFormat, a, d, n, t);
    InJoin(DescriptionRequired, a, d, n, t);
    InJoin(TypeInvalid, a, d, n, t);
  }

  lemma InJoin(e: ValidationError, a: seq<ValidationError>, d: seq<ValidationError>,
               n: seq<ValidationError>, t: seq<ValidationError>)
    ensures e in a + d + n + t <==> e in a || e in d || e in n || e in t
  {
  }

  /** Two report-ordered lists, the first all before the second, stay in order joined. */
  lemma OrderedJoin(a: seq<ValidationError>, b: seq<ValidationError>, bound: nat)
    requires InReportOrder(a) && InReportOrder(b)
    requires forall i :: 0 <= i < |a| ==> a[i].Rank() < bound
    requires forall j :: 0 <= j < |b| ==> b[j].Rank() >= bound
    ensures InReportOrder(a + b)
  {
    var ab := a + b;
    forall i, j | 0 <= i < j < |ab|
      ensures ab[i].Rank() < ab[j].Rank()
    {
      if j < |a| {
        assert ab[i] == a[i] && ab[j] == a[j];
      } else if i >= |a| {
        assert ab[i] == b[i - |a|] && ab[j] == b[j - |a|];
      } else {
        assert ab[i] == a[i] && ab[j] == b[j - |a|];
      }
    }
  }

  /** The checks come in the fixed order amount, date, description, type, at most
      one per field, and none at all exactly when the input is acceptable. */
  lemma ValidationErrorsOrdered(x: TransactionInput)
    ensures var errors := ValidationErrors(x);
      && InReportOrder(errors)
      && |errors| <= 4
      && (errors == [] <==> Acceptable(x))
  {
    var a, d, n, t := AmountErrors(x), DateErrors(x), DescriptionErrors(x), TypeErrors(x);
    assert forall i :: 0 <= i < |a| ==> a[i].Rank() == 0;
    assert forall i :: 0 <= i < |d| ==> 1 <= d[i].Rank() <= 2;
    assert forall i :: 0 <= i < |n| ==> n[i].Rank() == 3;
    assert forall i :: 0 <= i < |t| ==> t[i].Rank() == 4;
    OrderedJoin(a, d, 1);
    OrderedJoin(a + d, n, 3);
    OrderedJoin(a + d + n, t, 4);
    NoErrorsIffAcceptable(x);
  }

  lemma NoErrorsIffAcceptable(x: TransactionInput)
    ensures |ValidationErrors(x)| <= 4
    ensures ValidationErrors(x) == [] <==> Acceptable(x)
  {
    var a, d, n, t := AmountErrors(x), DateErrors(x), DescriptionErrors(x), TypeErrors(x);
    assert |ValidationErrors(x)| == |a| + |d| + |n| + |t|;
  }

  /** `validateTransaction`: pushes one entry per failing check, in order; each
      entry stands for its message (`Message()`). */
  method ValidateTransaction(x: TransactionInput) returns (isValid: bool, errors: seq<ValidationError>)
    ensures errors == ValidationErrors(x)
    ensures isValid <==> Acceptable(x)
  {
    errors := [];
    if x.amount == None || x.amount.value <= 0.0 {
      errors := errors + [AmountError];
    }
    assert errors == AmountErrors(x);
    match x.date {
      case MissingDate =>
        errors := errors + [DateRequired];
      case UnparseableDate =>
        errors := errors + [DateFormat];
      case ParsedDate(_) =>
    }
    assert errors == AmountErrors(x) + DateErrors(x);
    if x.description == None || IsBlank(x.description.value) {
      errors := errors + [DescriptionRequired];
    }
    assert errors == AmountErrors(x) + DateErrors(x) + DescriptionErrors(x);
    if x.kind == None || (x.kind.value != "income" && x.kind.value != "expense") {
      errors := errors + [TypeInvalid];
    }
    assert errors == ValidationErrors(x);
    isValid := |errors| == 0;
    NoErrorsIffAcceptable(x);
  }
}
