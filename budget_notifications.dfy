/** The budget-exceeded evaluator, `checkBudgetsAndNotify`: after a
    transaction is recorded or a budget is created it picks the candidate
    budgets, computes each one's period window, sums the period's expense
    spend and appends a high-priority "Budget exceeded" notification when the
    spend reaches the budget, with a 12-hour dedupe for budgets that have no
    month.  The database is a `Store.Database`; the clock is the parameter
    `now` (milliseconds, UTC). */
module BudgetNotifications {
  import opened Wrappers
  import opened Store
  import opened CivilDates
  import opened JsText

  /** Twelve hours in milliseconds. */
  const DedupeWindowMs: int := 12 * 60 * 60 * 1000

  /** The object passed to the evaluator: an inserted transaction row, or the
      `{category_id, amount, month}` of a new budget (the other fields then
      `Null`). */
  datatype Context = Context(categoryId: Value, amount: Value, month: Option<YearMonth>, kind: Value, transactionDate: Value)

  /** The context built from an inserted transaction row; a row has no month. */
  function TransactionContext(t: Transaction): Context {
    Context(t.categoryId, t.amount, None, t.kind, t.date)
  }

  /** Database failures the evaluator swallows: the candidate query failing
      ends the call; a failure while processing one budget (named by id)
      skips only that budget. */
  datatype Faults = Faults(selectFails: bool, failing: set<int>)

  /** One call: the user, the context and the clock. */
  datatype Call = Call(userId: int, context: Context, now: int)

  // ---------------------------------------------------------------------
  // Candidate budgets

  /** The category filter: the context's category as a number, or `None`
      (SQL NULL) when it is missing, zero or not a number. */
  function CategoryParam(v: Value): (r: Option<int>)
    ensures v == Null || v == Num(0) || v == Str("") || v == Bool(false) ==> r.None?
    ensures v.Num? && v.n != 0 ==> r == Some(v.n)
    ensures v == Bool(true) ==> r == Some(1)
    ensures v.Str? && StringToNumber(v.s).NaN? ==> r.None?
    ensures v.Str? && IsSignedInteger(Trim(v.s)) && IsFiniteNumber(v.s) ==> r == Some(SignedIntegerValue(Trim(v.s)))
  {
    if Truthy(v) then
      if v.Str? && IsSignedInteger(Trim(v.s)) && IsFiniteNumber(v.s) then
        SignedIntegerNumber(v.s);
        ToNumber(v)
      else ToNumber(v)
    else None
  }

  /** The text of any non-zero safe integer selects that category. */
  lemma CategoryParamOfText(n: int)
    requires n != 0 && -MaxSafeInteger <= n <= MaxSafeInteger
    ensures CategoryParam(Str(IntToString(n))) == Some(n)
  {
    StringToIntOfString(n);
  }

  /** `Number("1e3")` is 1000, so `"1e3"` selects category 1000. */
  lemma CategoryParamExponent()
    ensures CategoryParam(Str("1e3")) == Some(1000)
  {
    ExponentExample();
  }

  /** `category_id IS NULL OR category_id = $2`; with a NULL parameter only
      category-less budgets pass. */
  predicate CategoryMatches(b: Budget, cat: Option<int>) {
    b.categoryId.None? || (cat.Some? && b.categoryId == cat)
  }

  /** The budget-created path is taken when `month` and `amount` are both truthy. */
  predicate IsCreationContext(ctx: Context) {
    ctx.month.Some? && Truthy(ctx.amount)
  }

  predicate CreationMatch(b: Budget, userId: int, cat: Option<int>, month: YearMonth) {
    b.userId == userId && CategoryMatches(b, cat) && b.month == Some(month)
  }

  /** `ORDER BY budget_id DESC LIMIT 1` over the matching budgets. */
  function LatestMatching(bs: seq<Budget>, userId: int, cat: Option<int>, month: YearMonth): (r: Option<Budget>)
    ensures r.Some? ==> r.value in bs && CreationMatch(r.value, userId, cat, month)
    ensures r.Some? ==> forall i :: 0 <= i < |bs| && CreationMatch(bs[i], userId, cat, month) ==> bs[i].id <= r.value.id
    ensures r.None? ==> forall i :: 0 <= i < |bs| ==> !CreationMatch(bs[i], userId, cat, month)
  {
    if bs == [] then None
    else
      var rest := LatestMatching(bs[1..], userId, cat, month);
      if CreationMatch(bs[0], userId, cat, month) && (rest.None? || rest.value.id <= bs[0].id) then
        Some(bs[0])
      else
        rest
  }

  predicate ActiveMatch(b: Budget, userId: int, cat: Option<int>) {
    b.userId == userId && b.active && CategoryMatches(b, cat)
  }

  /** The transaction path's query: the user's active budgets whose category
      is NULL or equal, in table order. */
  function ActiveMatching(bs: seq<Budget>, userId: int, cat: Option<int>): (r: seq<Budget>)
    ensures forall b :: b in r <==> b in bs && ActiveMatch(b, userId, cat)
    ensures |r| <= |bs|
  {
    if bs == [] then []
    else
      var rest := ActiveMatching(bs[1..], userId, cat);
      if ActiveMatch(bs[0], userId, cat) then [bs[0]] + rest else rest
  }

  /** The budgets the evaluator walks through. */
  function Candidates(bs: seq<Budget>, userId: int, ctx: Context): (r: seq<Budget>)
    ensures IsCreationContext(ctx) ==> |r| <= 1
    ensures IsCreationContext(ctx) && r != [] ==>
      r[0] in bs && CreationMatch(r[0], userId, CategoryParam(ctx.categoryId), ctx.month.value)
      && forall b :: b in bs && CreationMatch(b, userId, CategoryParam(ctx.categoryId), ctx.month.value) ==> b.id <= r[0].id
    ensures IsCreationContext(ctx) && r == [] ==>
      forall b :: b in bs ==> !CreationMatch(b, userId, CategoryParam(ctx.categoryId), ctx.month.value)
    ensures !IsCreationContext(ctx) ==>
      forall b :: b in r <==> b in bs && ActiveMatch(b, userId, CategoryParam(ctx.categoryId))
  {
    var cat := CategoryParam(ctx.categoryId);
    if IsCreationContext(ctx) then
      match LatestMatching(bs, userId, cat, ctx.month.value)
      case Some(b) => [b]
      case None => []
    else
      ActiveMatching(bs, userId, cat)
  }

  // ---------------------------------------------------------------------
  // Period windows

  /** The inclusive first and last day (`YYYY-MM-DD`) of a budget period. */
  datatype Window = Window(start: int, end: int)

  predicate InWindow(d: int, w: Window) {
    w.start <= d <= w.end
  }

  /** An explicit month: from `Date.UTC(y, m - 1, 1)` up to one millisecond
      before `Date.UTC(y, m, 1)`. */
  function MonthWindow(ym: YearMonth): Window {
    Window(DateUtc(ym.year, ym.month - 1, 1), DateUtc(ym.year, ym.month, 1) - 1)
  }

  /** A weekly budget: back `(getDay() + 6) % 7` days to Monday, then seven days. */
  function WeekWindow(ref: int): Window {
    Window(WeekStart(ref), SetDate(WeekStart(ref), GetDate(WeekStart(ref)) + 7) - 1)
  }

  /** The Monday on or before `ref`: `setDate(getDate() - diff)` moves back `diff` days. */
  function WeekStart(ref: int): (r: int)
    ensures r == ref - MondayOffset(ref)
  {
    SetDateBack(ref, MondayOffset(ref));
    SetDate(ref, GetDate(ref) - MondayOffset(ref))
  }

  /** `diff`: how many days the reference date lies after the Monday before it. */
  function MondayOffset(ref: int): int {
    (WeekDay(ref) + 6) % 7
  }

  /** `period_start_day`, with a missing or zero value read as 1. */
  function AnchorDay(b: Budget): int {
    match b.periodStartDay
    case Some(d) => if d != 0 then d else 1
    case None => 1
  }

  /** A monthly budget anchored on day `anchor`: this month's anchor day when
      the reference date has reached it, otherwise last month's, with
      JavaScript's day and month rollover; the window ends one month later
      minus one millisecond. */
  function AnchoredMonthWindow(anchor: int, ref: int): Window {
    Window(AnchoredStart(anchor, ref), SetMonth(AnchoredStart(anchor, ref), GetMonth(AnchoredStart(anchor, ref)) + 1) - 1)
  }

  function AnchoredStart(anchor: int, ref: int): int {
    if GetDate(ref) >= anchor then SetDate(ref, anchor)
    else SetDate(SetMonth(ref, GetMonth(ref) - 1), anchor)
  }

  /** `getPeriodRange`. */
  function PeriodRange(b: Budget, ref: int): Window {
    if b.month.Some? then MonthWindow(b.month.value)
    else if b.periodType == Some("weekly") then WeekWindow(ref)
    else AnchoredMonthWindow(AnchorDay(b), ref)
  }

  /** The reference date: the context's transaction date, else today. */
  function RefDay(ctx: Context, today: int): int {
    if ctx.transactionDate.Date? then ctx.transactionDate.day else today
  }

  // ---------------------------------------------------------------------
  // Spend, amount, threshold and dedupe

  /** `category_id = $4` is added only for a truthy budget category. */
  function SpendCategory(b: Budget): Option<int> {
    if b.categoryId.Some? && b.categoryId.value != 0 then b.categoryId else None
  }

  /** Whether a row enters the period's `SUM(amount)`. */
  predicate Counts(t: Transaction, userId: int, b: Budget, w: Window) {
    && t.userId == userId
    && t.kind == Str("expense")
    && t.date.Date? && InWindow(t.date.day, w)
    && (SpendCategory(b).Some? ==> t.categoryId == Num(SpendCategory(b).value))
  }

  /** A numeric amount; SQL `SUM` skips NULLs. */
  function AmountOf(v: Value): int {
    if v.Num? then v.n else 0
  }

  /** `COALESCE(SUM(amount), 0)` over the counted rows. */
  function Spent(ts: seq<Transaction>, userId: int, b: Budget, w: Window): (r: int)
    ensures (forall i | 0 <= i < |ts| :: !Counts(ts[i], userId, b, w)) ==> r == 0
    ensures (forall i | 0 <= i < |ts| :: AmountOf(ts[i].amount) >= 0) ==> r >= 0
  {
    if ts == [] then 0
    else
      var last := ts[|ts| - 1];
      Spent(ts[..|ts| - 1], userId, b, w) + (if Counts(last, userId, b, w) then AmountOf(last.amount) else 0)
  }

  /** `newSpent`: the period spend plus the context's own amount when the
      context is an expense dated inside the window; `None` is NaN. */
  function NewSpent(current: int, ctx: Context, w: Window, today: int): (r: Option<int>)
    ensures ctx.kind != Str("expense") ==> r == Some(current)
    ensures ctx.amount.Num? ==> r == Some(current) || r == Some(current + ctx.amount.n)
  {
    if ctx.kind == Str("expense") && InWindow(RefDay(ctx, today), w) then
      match ToNumber(Or(ctx.amount, Num(0)))
      case Some(a) => Some(current + a)
      case None => None
    else Some(current)
  }

  /** `Number(b.amount || insertedObj.amount || 0)`; `None` is NaN. */
  function EffectiveAmount(b: Budget, ctx: Context): (r: Option<int>)
    ensures b.amount.Some? && b.amount.value != 0 ==> r == b.amount
    ensures (b.amount.None? || b.amount == Some(0)) && !Truthy(ctx.amount) ==> r == Some(0)
    ensures ctx.amount.Num? ==> r.Some?
  {
    if b.amount.Some? && b.amount.value != 0 then b.amount
    else ToNumber(Or(ctx.amount, Num(0)))
  }

  predicate IsRecentBudgetNotice(n: Notification, userId: int, budgetId: int, now: int) {
    && n.userId == userId
    && n.kind == "budget"
    && n.data.Some? && n.data.value.budgetId == Some(budgetId)
    && n.createdAt >= now - DedupeWindowMs
  }

  /** The dedupe query: a `budget` notification of this user naming this
      budget's id in its data, created in the last 12 hours.  A zero id is
      sent as the empty string, which no stored id equals. */
  predicate DedupeHit(log: seq<Notification>, userId: int, b: Budget, now: int)
    ensures DedupeHit(log, userId, b, now) ==> b.id != 0 && |log| > 0
  {
    b.id != 0 && exists i :: 0 <= i < |log| && IsRecentBudgetNotice(log[i], userId, b.id, now)
  }

  /** `Math.round(spent / amount * 100)`. */
  function RoundedPercent(spent: int, amount: int): int
    requires amount > 0
  {
    (200 * spent + amount) / (2 * amount)
  }

  /** The row inserted for an exceeded budget. */
  function ExceededNotice(userId: int, b: Budget, amount: int, spent: int, now: int): Notification
    requires amount > 0
  {
    Notification(userId, "Budget exceeded", ExceededMsg(amount, spent), "budget", High, "/budgets",
      Some(Payload(if b.id != 0 then Some(b.id) else None, b.month, RoundedPercent(spent, amount))), now)
  }

  /** The window the call evaluates budget `b` over. */
  function CallWindow(call: Call, b: Budget): Window {
    PeriodRange(b, RefDay(call.context, call.now / MsPerDay))
  }

  /** The loop body for budget `b`: the notification it appends, if any. */
  function Assess(ts: seq<Transaction>, log: seq<Notification>, call: Call, b: Budget): (r: Option<Notification>)
    ensures r.Some? ==> EffectiveAmount(b, call.context).Some? && EffectiveAmount(b, call.context).value > 0
    ensures r.Some? ==> r.value.userId == call.userId && r.value.kind == "budget" && r.value.createdAt == call.now
    ensures r.Some? && b.month.None? ==> !DedupeHit(log, call.userId, b, call.now)
  {
    var today := call.now / MsPerDay;
    var w := CallWindow(call, b);
    var spent := NewSpent(Spent(ts, call.userId, b, w), call.context, w, today);
    var amount := EffectiveAmount(b, call.context);
    if amount.None? || amount.value <= 0 then None
    else if spent.Some? && spent.value >= amount.value && !(b.month.None? && DedupeHit(log, call.userId, b, call.now)) then
      Some(ExceededNotice(call.userId, b, amount.value, spent.value, call.now))
    else None
  }

  /** The log after processing budget `b`. */
  function StepLog(ts: seq<Transaction>, log: seq<Notification>, call: Call, failing: set<int>, b: Budget): seq<Notification> {
    if b.id in failing then log
    else
      match Assess(ts, log, call, b)
      case Some(n) => log + [n]
      case None => log
  }

  /** The log after processing `cands` in order. */
  function Run(cands: seq<Budget>, ts: seq<Transaction>, log: seq<Notification>, call: Call, failing: set<int>): seq<Notification>
    decreases |cands|
  {
    if cands == [] then log
    else Run(cands[1..], ts, StepLog(ts, log, call, failing, cands[0]), call, failing)
  }

  /** The notifications table after one call of the evaluator. */
  function Evaluate(bs: seq<Budget>, ts: seq<Transaction>, log: seq<Notification>, call: Call, faults: Faults): (r: seq<Notification>)
    ensures faults.selectFails ==> r == log
    ensures Candidates(bs, call.userId, call.context) == [] ==> r == log
  {
    if faults.selectFails then log
    else Run(Candidates(bs, call.userId, call.context), ts, log, call, faults.failing)
  }

  // ---------------------------------------------------------------------
  // The evaluator

  /** The spend query of the per-budget block plus the triggering expense. */
  method PeriodSpend(db: Database, call: Call, b: Budget) returns (newSpent: Option<int>)
    ensures newSpent == NewSpent(Spent(db.transactions, call.userId, b, CallWindow(call, b)),
                                 call.context, CallWindow(call, b), call.now / MsPerDay)
  {
    var ctx := call.context;
    var today := call.now / MsPerDay;
    var w := CallWindow(call, b);
    var currentSpent := Spent(db.transactions, call.userId, b, w);
    newSpent := AddTriggeringExpense(currentSpent, ctx, w, today);
  }

  /** `newSpent = currentSpent`, then `newSpent += Number(amount || 0)` for an
      expense dated inside the window. */
  method AddTriggeringExpense(currentSpent: int, ctx: Context, w: Window, today: int) returns (newSpent: Option<int>)
    ensures newSpent == NewSpent(currentSpent, ctx, w, today)
  {
    newSpent := Some(currentSpent);
    if ctx.kind == Str("expense") && InWindow(RefDay(ctx, today), w) {
      var amt := ToNumber(Or(ctx.amount, Num(0)));
      newSpent := if amt.Some? then Some(currentSpent + amt.value) else None;
    }
  }

  /** The body of the per-budget `try` block: appends a notification when
      the budget is reached and no dedupe hit occurs. */
  method AssessBudget(db: Database, call: Call, b: Budget)
    modifies db`notifications
    ensures db.notifications == StepLog(db.transactions, old(db.notifications), call, {}, b)
  {
    var newSpent := PeriodSpend(db, call, b);
    var budgetAmount := EffectiveAmount(b, call.context);
    if budgetAmount.None? || budgetAmount.value <= 0 {
      return;
    }
    // percentAfter >= 100 is newSpent >= budgetAmount for a positive budget
    var dedupeFound := false;
    if b.month.None? {
      dedupeFound := DedupeHit(db.notifications, call.userId, b, call.now);
    }
    if newSpent.Some? && newSpent.value >= budgetAmount.value && !dedupeFound {
      db.notifications := db.notifications + [ExceededNotice(call.userId, b, budgetAmount.value, newSpent.value, call.now)];
    }
  }

  /** `checkBudgetsAndNotify(userId, insertedObj)`: only appends to the
      notifications table, never touches budgets or transactions, and never
      fails (every database failure in `faults` is swallowed). */
  method CheckBudgetsAndNotify(db: Database, userId: int, ctx: Context, now: int, faults: Faults)
    modifies db`notifications
    ensures db.budgets == old(db.budgets) && db.transactions == old(db.transactions)
    ensures db.notifications == Evaluate(db.budgets, db.transactions, old(db.notifications), Call(userId, ctx, now), faults)
  {
    if faults.selectFails {
      return;
    }
    var call := Call(userId, ctx, now);
    var budgets := Candidates(db.budgets, userId, ctx);
    if |budgets| == 0 {
      return;
    }
    var i := 0;
    while i < |budgets|
      invariant 0 <= i <= |budgets|
      invariant db.budgets == old(db.budgets) && db.transactions == old(db.transactions)
      invariant Run(budgets[i..], db.transactions, db.notifications, call, faults.failing)
             == Run(budgets, db.transactions, old(db.notifications), call, faults.failing)
    {
      var b := budgets[i];
      assert budgets[i..][1..] == budgets[i + 1..];
      if b.id !in faults.failing {
        AssessBudget(db, call, b);
      }
      // a failure inside one budget is swallowed by the inner catch
      i := i + 1;
    }
  }
}
