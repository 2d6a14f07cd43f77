/** The rows of the budgets, transactions and notifications tables, and the
    database that holds them.  Request fields and transaction columns are
    JSON-like values because the handlers test them for JavaScript truthiness
    before anything else. */
module Store {
  import opened Wrappers
  import opened JsText
  import CivilDates

  /** A request field or column value.  `Date` is a date that has already been
      read into a day number (see CivilDates); `Null` also stands for a field
      that is absent. */
  datatype Value = Null | Num(n: int) | Str(s: string) | Bool(b: bool) | Date(day: int)

  /** JavaScript truthiness. */
  predicate Truthy(v: Value) {
    match v
    case Null => false
    case Num(n) => n != 0
    case Str(s) => s != []
    case Bool(b) => b
    case Date(_) => true
  }

  /** `a || b`. */
  function Or(a: Value, b: Value): (r: Value)
    ensures Truthy(r) <==> Truthy(a) || Truthy(b)
    ensures Truthy(a) ==> r == a
  {
    if Truthy(a) then a else b
  }

  /** `Number(v)` when the result is an integer; `None` stands for NaN or a
      fraction. */
  function ToNumber(v: Value): Option<int> {
    match v
    case Null => Some(0)
    case Num(n) => Some(n)
    case Str(s) => StringToInt(s)
    case Bool(b) => Some(if b then 1 else 0)
    case Date(d) => Some(d * CivilDates.MsPerDay)
  }

  /** `String(v)` for the values a JSON body can hold (a `Date` never comes
      from a request body). */
  function TextOf(v: Value): string {
    match v
    case Str(s) => s
    case Num(n) => IntToString(n)
    case Bool(b) => if b then "true" else "false"
    case Null => "null"
    case Date(_) => ""
  }

  /** A JSON object (a request body, a token payload); a key that is absent
      reads as `undefined`, which behaves as `Null` here. */
  type Object = map<string, Value>

  function Field(o: Object, k: string): (v: Value)
    ensures k !in o ==> v == Null
  {
    if k in o then o[k] else Null
  }

  /** The range of a PostgreSQL `integer` column. */
  const Int4Min: int := -2147483648
  const Int4Max: int := 2147483647

  /** A value PostgreSQL's `integer` type can hold. */
  predicate IsInt4(n: int) {
    Int4Min <= n <= Int4Max
  }

  /** The white space PostgreSQL's integer input skips around the digits. */
  predicate IsPgSpace(c: char) {
    c == ' ' || c == '\t' || c == '\n' || c == '\r' || c == '\U{000B}' || c == '\U{000C}'
  }

  function PgTrimStart(s: string): (r: string)
    ensures |r| <= |s| && r == s[|s| - |r|..]
    ensures r == [] || !IsPgSpace(r[0])
  {
    if s == [] || !IsPgSpace(s[0]) then s else PgTrimStart(s[1..])
  }

  function PgTrimEnd(s: string): (r: string)
    ensures |r| <= |s| && r == s[..|r|]
    ensures r == [] || !IsPgSpace(r[|r| - 1])
  {
    if s == [] || !IsPgSpace(s[|s| - 1]) then s else PgTrimEnd(s[..|s| - 1])
  }

  /** A text parameter cast to `integer`: optional white space, an optional
      sign and decimal digits within the column's range; `None` is the cast
      error the query raises. */
  function PgInteger(s: string): (r: Option<int>)
    ensures r.Some? ==> Int4Min <= r.value <= Int4Max
    ensures r.Some? ==> IsSignedInteger(PgTrimEnd(PgTrimStart(s)))
  {
    var t := PgTrimEnd(PgTrimStart(s));
    if IsSignedInteger(t) && Int4Min <= SignedIntegerValue(t) <= Int4Max then Some(SignedIntegerValue(t)) else None
  }

  /** The decimal text of any value of the column casts back to it. */
  lemma PgIntegerOfString(n: int)
    requires Int4Min <= n <= Int4Max
    ensures PgInteger(IntToString(n)) == Some(n)
  {
    IntStringShape(n);
    var s := IntToString(n);
    assert PgTrimStart(s) == s;
    assert PgTrimEnd(s) == s;
  }

  /** Text that is no integer makes the cast fail. */
  lemma PgIntegerRejects()
    ensures PgInteger("abc") == None
    ensures PgInteger("1.5") == None
  {
    PgRejects("abc", 1);
    PgRejects("1.5", 1);
  }

  /** Text without spaces at its ends, with a character other than a digit
      after its first, does not cast. */
  lemma PgRejects(s: string, i: int)
    requires 0 < i < |s| && !IsPgSpace(s[0]) && !IsPgSpace(s[|s| - 1]) && !IsDigit(s[i])
    ensures PgInteger(s) == None
  {
    assert PgTrimEnd(PgTrimStart(s)) == s;
    NonDigitNotInteger(s, i);
  }

  /** A character other than a digit after the first position rules out a
      signed integer. */
  lemma NonDigitNotInteger(t: string, i: int)
    requires 0 < i < |t| && !IsDigit(t[i])
    ensures !IsSignedInteger(t)
  {
    if t[0] == '-' || t[0] == '+' {
      assert t[1..][i - 1] == t[i];
    }
  }

  /** The `YYYY-MM` token of a month-scoped budget, as the two numbers the
      evaluator splits it into. */
  datatype YearMonth = YearMonth(year: int, month: int)

  /** A row of `budgets`.  `month` is `None` for NULL or the empty string. */
  datatype Budget = Budget(
    id: int,
    userId: int,
    categoryId: Option<int>,
    amount: Option<int>,
    month: Option<YearMonth>,
    periodType: Option<string>,
    periodStartDay: Option<int>,
    active: bool,
    description: Value)

  /** A row of `transactions`. */
  datatype Transaction = Transaction(
    id: int,
    userId: int,
    categoryId: Value,
    kind: Value,
    amount: Value,
    currency: Value,
    description: Value,
    merchant: Value,
    date: Value)

  datatype Priority = Low | Medium | High

  /** What a notification's message reports; its rendering (currency
      formatting with `toLocaleString`) is not modelled. */
  datatype Message =
    | ExceededMsg(budget: int, spent: int)
    | CreatedMsg(amount: Value, month: Option<YearMonth>)
    | TransactionMsg(amount: Value, about: Value)

  /** The JSON `data` column of a budget notification. */
  datatype Payload = Payload(budgetId: Option<int>, month: Option<YearMonth>, percent: int)

  /** A row of `notifications`; `createdAt` is in milliseconds. */
  datatype Notification = Notification(
    userId: int,
    title: string,
    message: Message,
    kind: string,
    priority: Priority,
    actionUrl: string,
    data: Option<Payload>,
    createdAt: int)

  /** The tables the budget and transaction handlers touch.  The id counters
      play the role of the tables' serial sequences. */
  class Database {
    var budgets: seq<Budget>
    var transactions: seq<Transaction>
    var notifications: seq<Notification>
    var nextBudgetId: int
    var nextTransactionId: int

    /** Every stored id is positive and below its sequence's next value. */
    ghost predicate Valid()
      reads this
    {
      && 0 < nextBudgetId && 0 < nextTransactionId
      && (forall i :: 0 <= i < |budgets| ==> 0 < budgets[i].id < nextBudgetId)
      && (forall i :: 0 <= i < |transactions| ==> 0 < transactions[i].id < nextTransactionId)
    }
  }
}
