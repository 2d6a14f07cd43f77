/** What the budget-exceeded evaluator guarantees: it only appends
    "Budget exceeded" notices, at most one per candidate budget; its period
    windows are the calendar month, the Monday-to-Sunday week and the anchored
    month it means; the triggering expense is counted when it is dated inside
    the window; the threshold and the rounded percent agree with the
    floating-point formulas; and the 12-hour dedupe holds only for budgets
    without a month. */
module BudgetProperties {
  import opened Wrappers
  import opened Store
  import opened CivilDates
  import opened BudgetNotifications

  /** The shape of every notification the evaluator writes. */
  predicate IsExceededNotice(n: Notification, userId: int) {
    && n.userId == userId && n.title == "Budget exceeded" && n.kind == "budget"
    && n.priority == High && n.actionUrl == "/budgets" && n.data.Some?
  }

  // ---------------------------------------------------------------------
  // Append-only, at most one notice per candidate

  lemma {:induction false} RunOnlyAppends(cands: seq<Budget>, ts: seq<Transaction>, log: seq<Notification>, call: Call, failing: set<int>)
    ensures |log| <= |Run(cands, ts, log, call, failing)| <= |log| + |cands|
    ensures Run(cands, ts, log, call, failing)[..|log|] == log
    ensures forall i :: |log| <= i < |Run(cands, ts, log, call, failing)| ==>
              IsExceededNotice(Run(cands, ts, log, call, failing)[i], call.userId)
    decreases |cands|
  {
    if cands != [] {
      var log1 := StepLog(ts, log, call, failing, cands[0]);
      RunOnlyAppends(cands[1..], ts, log1, call, failing);
      var r := Run(cands, ts, log, call, failing);
      assert r == Run(cands[1..], ts, log1, call, failing);
      assert log1[..|log|] == log;
      assert r[..|log|] == r[..|log1|][..|log|];
      forall i | |log| <= i < |r|
        ensures IsExceededNotice(r[i], call.userId)
      {
        if i < |log1| {
          assert r[i] == r[..|log1|][i] == log1[i];
        }
      }
    }
  }

  /** The evaluator keeps the old notifications as a prefix, appends only
      "Budget exceeded" notices of the calling user, at most one per
      candidate budget, so nothing when no budget matches and at most one on
      the budget-created path. */
  lemma EvaluateOnlyAppends(bs: seq<Budget>, ts: seq<Transaction>, log: seq<Notification>, call: Call, faults: Faults)
    ensures var r := Evaluate(bs, ts, log, call, faults);
      && |log| <= |r| <= |log| + |Candidates(bs, call.userId, call.context)|
      && r[..|log|] == log
      && (IsCreationContext(call.context) ==> |r| <= |log| + 1)
      && forall i :: |log| <= i < |r| ==> IsExceededNotice(r[i], call.userId)
  {
    if !faults.selectFails {
      RunOnlyAppends(Candidates(bs, call.userId, call.context), ts, log, call, faults.failing);
    }
  }

  // ---------------------------------------------------------------------
  // Period windows

  /** A month-scoped budget's window is exactly its calendar month: it starts on
      day 1 and ends on the month's last day. */
  lemma MonthWindowIsCalendarMonth(ym: YearMonth)
    requires 1 <= ym.month <= 12
    ensures var y := UtcYear(ym.year);
      var w := MonthWindow(ym);
      && ToCivil(w.start) == Civil(y, ym.month - 1, 1)
      && ToCivil(w.end) == Civil(y, ym.month - 1, DaysInMonth(y, ym.month - 1))
      && w.end - w.start + 1 == DaysInMonth(y, ym.month - 1)
  {
    var y, m := UtcYear(ym.year), ym.month - 1;
    MonthWindowDays(ym);
    MonthLengths(y, m);
    CivilOfMakeDay(y, m, 1);
    CivilOfMakeDay(y, m, DaysInMonth(y, m));
  }

  lemma MonthWindowDays(ym: YearMonth)
    requires 1 <= ym.month <= 12
    ensures var y, m := UtcYear(ym.year), ym.month - 1;
      && MonthWindow(ym) == Window(MakeDay(y, m, 1), MakeDay(y, m, DaysInMonth(y, m)))
      && MakeDay(y, m, DaysInMonth(y, m)) - MakeDay(y, m, 1) + 1 == DaysInMonth(y, m)
  {
    var y, m := UtcYear(ym.year), ym.month - 1;
    NextMonthDay(y, m, 1);
    MakeDayInRange(y, m, 1);
    MakeDayInRange(y, m, DaysInMonth(y, m));
    assert m + 1 == ym.month;
  }

  /** A weekly budget's window starts on the Monday on or before the
      reference date, lasts seven days and contains the reference date. */
  lemma WeekWindowIsMondayWeek(ref: int)
    ensures var w := WeekWindow(ref);
      && WeekDay(w.start) == 1
      && w.end == w.start + 6
      && InWindow(ref, w)
  {
    WeekStartIsMonday(ref);
    WeekWindowSpan(ref);
  }

  lemma WeekWindowSpan(ref: int)
    ensures WeekWindow(ref) == Window(WeekStart(ref), WeekStart(ref) + 6)
  {
    WeekEndOf(WeekStart(ref));
  }

  /** Seven days on from any day, minus one. */
  lemma WeekEndOf(start: int)
    ensures SetDate(start, GetDate(start) + 7) - 1 == start + 6
  {
    SetDateMoves(start, GetDate(start) + 7);
  }

  lemma WeekStartIsMonday(ref: int)
    ensures WeekStart(ref) == ref - (WeekDay(ref) + 6) % 7
    ensures WeekDay(WeekStart(ref)) == 1
  {
    MondayIs(WeekStart(ref), ref);
  }

  /** A day `(getDay() + 6) % 7` days before `ref` is a Monday. */
  lemma MondayIs(s: int, ref: int)
    requires s == ref - (WeekDay(ref) + 6) % 7
    ensures WeekDay(s) == 1
  {
    MondayBefore(ref);
  }

  /** A monthly budget anchored on a day from 1 to 28: the window starts on the
      anchor day, is one calendar month long and contains the reference date. */
  lemma AnchoredWindowContainsRef(anchor: int, ref: int)
    requires 1 <= anchor <= 28
    ensures var w := AnchoredMonthWindow(anchor, ref);
      && GetDate(w.start) == anchor
      && w.end - w.start + 1 == DaysInMonth(GetFullYear(w.start), GetMonth(w.start))
      && InWindow(ref, w)
  {
    var start := AnchoredStart(anchor, ref);
    AnchoredStartFacts(anchor, ref);
    MonthAhead(start);
    DateParts(start);
    assert AnchoredMonthWindow(anchor, ref)
        == Window(start, start + DaysInMonth(GetFullYear(start), GetMonth(start)) - 1);
  }

  /** Where the anchored window starts: on the anchor day, at most a month
      before the reference date, and after the reference date's day of the
      previous month. */
  lemma AnchoredStartFacts(anchor: int, ref: int)
    requires 1 <= anchor <= 28
    ensures var start := AnchoredStart(anchor, ref);
      && GetDate(start) == anchor
      && start <= ref < start + DaysInMonth(GetFullYear(start), GetMonth(start))
  {
    if GetDate(ref) >= anchor {
      AnchoredThisMonth(anchor, ref);
    } else {
      AnchoredLastMonth(anchor, ref);
    }
  }

  /** The reference date has reached the anchor day: the window starts on this
      month's anchor day. */
  lemma AnchoredThisMonth(anchor: int, ref: int)
    requires 1 <= anchor <= 28 && GetDate(ref) >= anchor
    ensures var start := AnchoredStart(anchor, ref);
      && GetDate(start) == anchor
      && start <= ref < start + DaysInMonth(GetFullYear(start), GetMonth(start))
  {
    var y, m, d := GetFullYear(ref), GetMonth(ref), GetDate(ref);
    DateParts(ref);
    MonthLengths(y, m);
    SetDateMoves(ref, anchor);
    var start := ref - d + anchor;
    MakeDayNormalise(y, m, anchor);
    assert start == MakeDay(y, m, anchor);
    CivilOfMakeDay(y, m, anchor);
    assert AnchoredStart(anchor, ref) == start;
  }

  /** The reference date is before the anchor day: the window starts on last
      month's anchor day. */
  lemma AnchoredLastMonth(anchor: int, ref: int)
    requires 1 <= anchor <= 28 && GetDate(ref) < anchor
    ensures var start := AnchoredStart(anchor, ref);
      && GetDate(start) == anchor
      && start <= ref < start + DaysInMonth(GetFullYear(start), GetMonth(start))
  {
    var y, m := GetFullYear(ref), GetMonth(ref);
    var py, pm := PrevYear(y, m), PrevMonth(m);
    LastMonthStart(anchor, ref);
    MonthLengths(py, pm);
    CivilOfMakeDay(py, pm, anchor);
  }

  /** Before the anchor day the window starts `getDate()` days and one
      previous-month length back, on the previous month's anchor day. */
  lemma LastMonthStart(anchor: int, ref: int)
    requires 1 <= anchor <= 28 && GetDate(ref) < anchor
    ensures var y, m := GetFullYear(ref), GetMonth(ref);
      && AnchoredStart(anchor, ref) == MakeDay(PrevYear(y, m), PrevMonth(m), anchor)
      && AnchoredStart(anchor, ref) == ref - GetDate(ref) - DaysInMonth(PrevYear(y, m), PrevMonth(m)) + anchor
  {
    var y, m, d := GetFullYear(ref), GetMonth(ref), GetDate(ref);
    var py, pm := PrevYear(y, m), PrevMonth(m);
    MonthLengths(py, pm);
    MonthBack(ref);
    MonthBackDate(ref);
    var p := SetMonth(ref, m - 1);
    assert GetFullYear(p) == py && GetMonth(p) == pm && GetDate(p) == d;
    SetDateMoves(p, anchor);
    DateParts(p);
    MakeDayNormalise(py, pm, anchor);
  }

  /** With an anchor past the 28th, JavaScript's day rollover can push the
      window's start past the reference date: anchored on the 31st, March 1
      of a common year gets a window starting on March 3. */
  lemma LargeAnchorMissesRef(y: int)
    requires !IsLeap(y)
    ensures var ref := MakeDay(y, 2, 1);
      var w := AnchoredMonthWindow(31, ref);
      && w.start == MakeDay(y, 2, 3)
      && !InWindow(ref, w)
  {
    var ref := MakeDay(y, 2, 1);
    CivilOfMakeDay(y, 2, 1);
    SmallMonth(2);
    assert PrevYear(y, 2) == y && PrevMonth(2) == 1;
    MonthBack(ref);
    MonthBackDate(ref);
    var feb := SetMonth(ref, 1);
    assert feb == ref - 28;
    SetDateMoves(feb, 31);
    MakeDayNormalise(y, 2, 3);
    assert AnchoredStart(31, ref) == ref + 2;
  }

  // ---------------------------------------------------------------------
  // Spend and threshold

  /** For a recurring weekly budget, or a monthly one anchored on a day up to
      the 28th, a dated expense context always falls in its own window, so
      its amount is added to the period spend. */
  lemma OwnExpenseCounted(b: Budget, ctx: Context, current: int, today: int, a: int)
    requires b.month.None?
    requires b.periodType == Some("weekly") || AnchorDay(b) <= 28
    requires AnchorDay(b) >= 1
    requires ctx.kind == Str("expense") && ctx.transactionDate.Date? && ctx.amount == Num(a)
    ensures NewSpent(current, ctx, PeriodRange(b, RefDay(ctx, today)), today) == Some(current + a)
  {
    var ref := RefDay(ctx, today);
    RecurringWindowContainsRef(b, ref);
    NewSpentInWindow(current, ctx, PeriodRange(b, ref), today, a);
  }

  /** A weekly window, or a monthly one anchored on a day up to the 28th,
      contains its reference date. */
  lemma RecurringWindowContainsRef(b: Budget, ref: int)
    requires b.month.None?
    requires b.periodType == Some("weekly") || 1 <= AnchorDay(b) <= 28
    ensures InWindow(ref, PeriodRange(b, ref))
  {
    if b.periodType == Some("weekly") {
      assert PeriodRange(b, ref) == WeekWindow(ref);
      WeekWindowIsMondayWeek(ref);
    } else {
      assert PeriodRange(b, ref) == AnchoredMonthWindow(AnchorDay(b), ref);
      AnchoredWindowContainsRef(AnchorDay(b), ref);
    }
  }

  /** An expense context dated inside the window adds its amount. */
  lemma NewSpentInWindow(current: int, ctx: Context, w: Window, today: int, a: int)
    requires ctx.kind == Str("expense") && ctx.amount == Num(a)
    requires InWindow(RefDay(ctx, today), w)
    ensures NewSpent(current, ctx, w, today) == Some(current + a)
  {
    assert ToNumber(Or(ctx.amount, Num(0))) == Some(a);
  }

  /** Adding a row to the table adds its amount to the period spend exactly
      when the row is counted. */
  lemma SpentAppend(ts: seq<Transaction>, t: Transaction, userId: int, b: Budget, w: Window)
    ensures Spent(ts + [t], userId, b, w) == Spent(ts, userId, b, w) + (if Counts(t, userId, b, w) then AmountOf(t.amount) else 0)
  {
    assert (ts + [t])[..|ts|] == ts;
  }

  /** `percentAfter >= 100` is `newSpent >= budgetAmount` for a positive budget. */
  lemma ThresholdIsPercent(spent: int, amount: int)
    requires amount > 0
    ensures (spent as real) / (amount as real) * 100.0 >= 100.0 <==> spent >= amount
  {
    var q := (spent as real) / (amount as real);
    assert q * (amount as real) == spent as real;
    if spent >= amount {
      assert q >= 1.0;
    } else {
      assert q < 1.0;
    }
  }

  /** The payload's percent is `Math.round` of the exact percentage: the
      nearest integer, halves rounded up. */
  lemma RoundedPercentIsNearest(spent: int, amount: int)
    requires amount > 0
    ensures var r := RoundedPercent(spent, amount) as real;
      var p := (spent as real) * 100.0 / (amount as real);
      r - 0.5 <= p < r + 0.5
  {
    var r := RoundedPercent(spent, amount);
    DivBounds(200 * spent + amount, 2 * amount);
    var ar := amount as real;
    var p := (spent as real) * 100.0 / ar;
    assert p * ar == (spent as real) * 100.0;
    var ra := (r as real) * ar;
    assert 2.0 * ra <= 200.0 * (spent as real) + ar < 2.0 * ra + 2.0 * ar by {
      assert (2 * amount * r) as real == 2.0 * ra;
    }
    assert ((r as real) - 0.5) * ar == ra - 0.5 * ar;
    assert ((r as real) + 0.5) * ar == ra + 0.5 * ar;
    ScaleBack((r as real) - 0.5, p, ar);
    ScaleBackStrict(p, (r as real) + 0.5, ar);
  }

  /** A notice for a budget reports at least 100 percent. */
  lemma NoticeReportsAtLeast100(ts: seq<Transaction>, log: seq<Notification>, call: Call, b: Budget)
    requires Assess(ts, log, call, b).Some?
    ensures Assess(ts, log, call, b).value.data.value.percent >= 100
  {
    var today := call.now / MsPerDay;
    var w := PeriodRange(b, RefDay(call.context, today));
    var spent := NewSpent(Spent(ts, call.userId, b, w), call.context, w, today);
    var amount := EffectiveAmount(b, call.context);
    assert spent.Some? && amount.Some? && 0 < amount.value <= spent.value;
    assert Assess(ts, log, call, b).value.data.value.percent == RoundedPercent(spent.value, amount.value);
    PercentAtLeast100(spent.value, amount.value);
  }

  /** Rounding never takes a spend that reaches the amount below 100 percent. */
  lemma PercentAtLeast100(spent: int, amount: int)
    requires 0 < amount <= spent
    ensures RoundedPercent(spent, amount) >= 100
  {
    DivBounds(200 * spent + amount, 2 * amount);
    var r := RoundedPercent(spent, amount);
    if r < 100 {
      MulMonotone(r, 99, 2 * amount);
    }
  }

  lemma DivBounds(n: int, d: int)
    requires d > 0
    ensures d * (n / d) <= n < d * (n / d) + d
  {
  }

  lemma MulMonotone(a: int, b: int, d: int)
    requires a <= b && d >= 0
    ensures d * a <= d * b
  {
    assert d * b - d * a == d * (b - a);
  }

  lemma ScaleBack(x: real, y: real, a: real)
    requires a > 0.0 && x * a <= y * a
    ensures x <= y
  {
  }

  lemma ScaleBackStrict(x: real, y: real, a: real)
    requires a > 0.0 && x * a < y * a
    ensures x < y
  {
  }

  // ---------------------------------------------------------------------
  // Dedupe

  /** Once a budget without a month has been notified, the same user's next
      evaluation within 12 hours stays silent for it, whatever was appended
      in between and whatever the spend. */
  lemma RecurringNoticeDeduped(ts: seq<Transaction>, ts2: seq<Transaction>, log: seq<Notification>, more: seq<Notification>,
                               call: Call, call2: Call, b: Budget)
    requires Assess(ts, log, call, b).Some?
    requires b.month.None? && b.id != 0
    requires call2.userId == call.userId
    requires call.now <= call2.now <= call.now + DedupeWindowMs
    ensures Assess(ts2, log + [Assess(ts, log, call, b).value] + more, call2, b).None?
  {
    var n := Assess(ts, log, call, b).value;
    var log2 := log + [n] + more;
    assert log2[|log|] == n;
    assert IsRecentBudgetNotice(log2[|log|], call2.userId, b.id, call2.now);
    assert DedupeHit(log2, call2.userId, b, call2.now);
  }

  /** A month-scoped budget is never deduped: its outcome does not depend on
      the notifications already stored. */
  lemma MonthBudgetNotDeduped(ts: seq<Transaction>, log: seq<Notification>, log2: seq<Notification>, call: Call, b: Budget)
    requires b.month.Some?
    ensures Assess(ts, log, call, b) == Assess(ts, log2, call, b)
  {
  }

  // ---------------------------------------------------------------------
  // A worked example

  const ExampleMonth: YearMonth := YearMonth(2025, 3)

  /** A budget of 1000 for March 2025 on no category. */
  function ExampleBudget(): Budget {
    Budget(1, 7, None, Some(1000), Some(ExampleMonth), None, None, true, Null)
  }

  function ExampleExpense(id: int, amount: int, day: int): Transaction {
    Transaction(id, 7, Num(3), Str("expense"), Num(amount), Str("INR"), Null, Str("shop"), Date(day))
  }

  /** A day of March 2025. */
  predicate InExampleMonth(day: int) {
    InWindow(day, MonthWindow(ExampleMonth))
  }

  /** One budget, an empty log and a context of category 3 on the
      transaction path: the evaluator's outcome is `Assess` on that budget. */
  lemma ExampleEvaluate(ts: seq<Transaction>, ctx: Context, now: int)
    requires ctx.categoryId == Num(3) && ctx.month.None?
    ensures Evaluate([ExampleBudget()], ts, [], Call(7, ctx, now), Faults(false, {}))
         == (match Assess(ts, [], Call(7, ctx, now), ExampleBudget())
             case Some(n) => [n]
             case None => [])
  {
    var b := ExampleBudget();
    assert CategoryParam(ctx.categoryId) == Some(3);
    assert ActiveMatching([b], 7, Some(3)) == [b];
    assert Candidates([b], 7, ctx) == [b];
  }

  /** An expense dated in March 2025 is counted by the example budget. */
  lemma ExampleSpentOne(a: int, day: int)
    requires InExampleMonth(day)
    ensures Spent([ExampleExpense(1, a, day)], 7, ExampleBudget(), MonthWindow(ExampleMonth)) == a
  {
    assert [ExampleExpense(1, a, day)] == [] + [ExampleExpense(1, a, day)];
    SpentAppend([], ExampleExpense(1, a, day), 7, ExampleBudget(), MonthWindow(ExampleMonth));
  }

  /** Two expenses dated in March 2025 are both counted. */
  lemma ExampleSpentTwo(a1: int, a2: int, day: int)
    requires InExampleMonth(day)
    ensures Spent([ExampleExpense(1, a1, day), ExampleExpense(2, a2, day)], 7, ExampleBudget(), MonthWindow(ExampleMonth)) == a1 + a2
  {
    var ts := [ExampleExpense(1, a1, day), ExampleExpense(2, a2, day)];
    ExampleSpentOne(a1, day);
    assert ts == [ExampleExpense(1, a1, day)] + [ExampleExpense(2, a2, day)];
    SpentAppend([ExampleExpense(1, a1, day)], ExampleExpense(2, a2, day), 7, ExampleBudget(), MonthWindow(ExampleMonth));
  }

  /** `Assess` appends a notice when the spend reaches a positive amount and
      the budget is not deduped. */
  lemma AssessReached(ts: seq<Transaction>, log: seq<Notification>, call: Call, b: Budget, w: Window, spent: int, amount: int)
    requires w == PeriodRange(b, RefDay(call.context, call.now / MsPerDay))
    requires NewSpent(Spent(ts, call.userId, b, w), call.context, w, call.now / MsPerDay) == Some(spent)
    requires EffectiveAmount(b, call.context) == Some(amount)
    requires 0 < amount <= spent
    requires !(b.month.None? && DedupeHit(log, call.userId, b, call.now))
    ensures Assess(ts, log, call, b) == Some(ExceededNotice(call.userId, b, amount, spent, call.now))
  {
  }

  /** A notice is appended only when the new spend reaches a positive
      amount: a spend that is NaN or below the amount is never reported. */
  lemma BelowAmountNoNotice(ts: seq<Transaction>, log: seq<Notification>, call: Call, b: Budget, w: Window)
    requires w == CallWindow(call, b)
    requires EffectiveAmount(b, call.context).Some?
    requires var spent := NewSpent(Spent(ts, call.userId, b, w), call.context, w, call.now / MsPerDay);
      spent.None? || spent.value < EffectiveAmount(b, call.context).value
    ensures Assess(ts, log, call, b).None?
  {
    var spent := NewSpent(Spent(ts, call.userId, b, w), call.context, w, call.now / MsPerDay);
    assert !(spent.Some? && spent.value >= EffectiveAmount(b, call.context).value);
  }

  /** Both directions together: `Assess` reports budget `b` exactly when its
      effective amount is positive, the new spend reaches it and the budget
      is not deduped. */
  lemma NoticeIffReached(ts: seq<Transaction>, log: seq<Notification>, call: Call, b: Budget, w: Window)
    requires w == CallWindow(call, b)
    ensures var spent := NewSpent(Spent(ts, call.userId, b, w), call.context, w, call.now / MsPerDay);
      var amount := EffectiveAmount(b, call.context);
      Assess(ts, log, call, b).Some? <==>
        && amount.Some? && amount.value > 0
        && spent.Some? && spent.value >= amount.value
        && !(b.month.None? && DedupeHit(log, call.userId, b, call.now))
  {
    var spent := NewSpent(Spent(ts, call.userId, b, w), call.context, w, call.now / MsPerDay);
    var amount := EffectiveAmount(b, call.context);
    if amount.None? || amount.value <= 0 {
      NoAmountNoNotice(ts, log, call, b);
    } else if spent.None? || spent.value < amount.value {
      BelowAmountNoNotice(ts, log, call, b, w);
    } else if !(b.month.None? && DedupeHit(log, call.userId, b, call.now)) {
      AssessReached(ts, log, call, b, w, spent.value, amount.value);
    }
  }

  /** A budget whose effective amount is NaN, zero or negative is never
      reported. */
  lemma NoAmountNoNotice(ts: seq<Transaction>, log: seq<Notification>, call: Call, b: Budget)
    requires EffectiveAmount(b, call.context).None? || EffectiveAmount(b, call.context).value <= 0
    ensures Assess(ts, log, call, b).None?
  {
  }

  /** A negative budget amount is truthy, so it is kept, and such a budget is
      never reported whatever the spend. */
  lemma NegativeBudgetNeverNotifies(ts: seq<Transaction>, log: seq<Notification>, call: Call, b: Budget)
    requires b.amount.Some? && b.amount.value < 0
    ensures Assess(ts, log, call, b).None?
  {
    NoAmountNoNotice(ts, log, call, b);
  }

  /** As written, `b.amount || insertedObj?.amount` lets a budget of 0 fall
      back to the amount of the expense that triggered the call: any positive
      expense dated in the window then reaches it, and the zero budget is
      reported exceeded with that expense as its amount. */
  lemma ZeroBudgetFallsBackToExpense(ts: seq<Transaction>, log: seq<Notification>, call: Call, b: Budget, a: int)
    requires b.amount == Some(0)
    requires call.context.kind == Str("expense") && call.context.amount == Num(a) && a > 0
    requires InWindow(RefDay(call.context, call.now / MsPerDay), CallWindow(call, b))
    requires Spent(ts, call.userId, b, CallWindow(call, b)) >= 0
    requires !(b.month.None? && DedupeHit(log, call.userId, b, call.now))
    ensures Assess(ts, log, call, b) == Some(ExceededNotice(call.userId, b, a, Spent(ts, call.userId, b, CallWindow(call, b)) + a, call.now))
  {
    assert EffectiveAmount(b, call.context) == Some(a);
    ExpenseReachesAmount(ts, log, call, b, a, a);
  }

  /** An expense context dated in the window whose amount, added to the
      table's spend, reaches a positive effective amount yields the notice. */
  lemma ExpenseReachesAmount(ts: seq<Transaction>, log: seq<Notification>, call: Call, b: Budget, a: int, amount: int)
    requires call.context.kind == Str("expense") && call.context.amount == Num(a)
    requires InWindow(RefDay(call.context, call.now / MsPerDay), CallWindow(call, b))
    requires EffectiveAmount(b, call.context) == Some(amount)
    requires 0 < amount <= Spent(ts, call.userId, b, CallWindow(call, b)) + a
    requires !(b.month.None? && DedupeHit(log, call.userId, b, call.now))
    ensures Assess(ts, log, call, b) == Some(ExceededNotice(call.userId, b, amount, Spent(ts, call.userId, b, CallWindow(call, b)) + a, call.now))
  {
    var w := CallWindow(call, b);
    var before := Spent(ts, call.userId, b, w);
    NewSpentInWindow(before, call.context, w, call.now / MsPerDay, a);
    AssessReached(ts, log, call, b, w, before + a, amount);
  }

  /** An expense context dated inside a budget's window is added to the
      table's spend: once that sum reaches the budget's amount of 1000, the
      budget is reported exceeded with it. */
  lemma AssessCountsNewExpense(b: Budget, w: Window, ts: seq<Transaction>, a: int, day: int, now: int, before: int)
    requires b.amount == Some(1000)
    requires PeriodRange(b, day) == w && InWindow(day, w)
    requires Spent(ts, 7, b, w) == before
    requires 1000 <= before + a
    ensures var ctx := TransactionContext(ExampleExpense(2, a, day));
      Assess(ts, [], Call(7, ctx, now), b) == Some(ExceededNotice(7, b, 1000, before + a, now))
  {
    var call := Call(7, TransactionContext(ExampleExpense(2, a, day)), now);
    ExampleCall(b, a, day, now);
    ExpenseReachesAmount(ts, [], call, b, a, 1000);
  }

  /** The call an example expense makes: its context is that expense, dated
      `day`, and a budget of 1000 keeps its own amount. */
  lemma ExampleCall(b: Budget, a: int, day: int, now: int)
    requires b.amount == Some(1000)
    ensures var call := Call(7, TransactionContext(ExampleExpense(2, a, day)), now);
      && call.context.kind == Str("expense") && call.context.amount == Num(a)
      && RefDay(call.context, call.now / MsPerDay) == day
      && CallWindow(call, b) == PeriodRange(b, day)
      && EffectiveAmount(b, call.context) == Some(1000)
  {
  }

  /** Whatever the table holds, once its March spend plus a new expense of
      `a` dated in March reaches 1000, the example budget is reported
      exceeded with that spend. */
  lemma ExampleAssess(ts: seq<Transaction>, a: int, day: int, now: int, before: int, total: int)
    requires InExampleMonth(day)
    requires Spent(ts, 7, ExampleBudget(), MonthWindow(ExampleMonth)) == before
    requires total == before + a && 1000 <= total
    ensures var ctx := TransactionContext(ExampleExpense(2, a, day));
      Evaluate([ExampleBudget()], ts, [], Call(7, ctx, now), Faults(false, {}))
      == [ExceededNotice(7, ExampleBudget(), 1000, total, now)]
  {
    AssessCountsNewExpense(ExampleBudget(), MonthWindow(ExampleMonth), ts, a, day, now, before);
    ExampleEvaluate(ts, TransactionContext(ExampleExpense(2, a, day)), now);
  }

  /** Prior spend of 900 and a new expense of 150 on the same day, evaluated
      before the new row is in the table: spend 1050, one notice at 105 percent. */
  lemma ExampleBeforeInsert(day: int, now: int)
    requires InExampleMonth(day)
    ensures var ctx := TransactionContext(ExampleExpense(2, 150, day));
      Evaluate([ExampleBudget()], [ExampleExpense(1, 900, day)], [], Call(7, ctx, now), Faults(false, {}))
      == [ExceededNotice(7, ExampleBudget(), 1000, 1050, now)]
      && RoundedPercent(1050, 1000) == 105
  {
    ExampleSpentOne(900, day);
    ExampleAssess([ExampleExpense(1, 900, day)], 150, day, now, 900, 1050);
  }

  /** Two expenses on the same day, the second being the one just added and
      already in the table: its amount is counted by the sum and added again,
      so the spend reported is `a1 + 2 * a2`. */
  lemma ExampleAddedRowCountedTwice(a1: int, a2: int, day: int, now: int)
    requires InExampleMonth(day)
    requires 1000 <= a1 + 2 * a2
    ensures var ctx := TransactionContext(ExampleExpense(2, a2, day));
      Evaluate([ExampleBudget()], [ExampleExpense(1, a1, day), ExampleExpense(2, a2, day)], [], Call(7, ctx, now), Faults(false, {}))
      == [ExceededNotice(7, ExampleBudget(), 1000, a1 + 2 * a2, now)]
  {
    ExampleSpentTwo(a1, a2, day);
    ExampleAssess([ExampleExpense(1, a1, day), ExampleExpense(2, a2, day)], a2, day, now, a1 + a2, a1 + 2 * a2);
  }

  /** The same after the new row has been inserted, which is what the add
      handler does before it calls the evaluator: the new expense is counted
      by the sum and added again, so spend reads 1200. */
  lemma ExampleAfterInsert(day: int, now: int)
    requires InExampleMonth(day)
    ensures var ctx := TransactionContext(ExampleExpense(2, 150, day));
      Evaluate([ExampleBudget()], [ExampleExpense(1, 900, day), ExampleExpense(2, 150, day)], [], Call(7, ctx, now), Faults(false, {}))
      == [ExceededNotice(7, ExampleBudget(), 1000, 1200, now)]
      && RoundedPercent(1200, 1000) == 120
  {
    ExampleAddedRowCountedTwice(900, 150, day, now);
  }

  /** Because the add handler inserts the row before the check, a budget of
      1000 with 600 already spent and a new expense of 300 is reported as
      exceeded with spend 1200, though the table holds only 900 of spend. */
  lemma DoubleCountFalseAlarm(day: int, now: int)
    requires InExampleMonth(day)
    ensures var ts := [ExampleExpense(1, 600, day), ExampleExpense(2, 300, day)];
      var ctx := TransactionContext(ExampleExpense(2, 300, day));
      && Spent(ts, 7, ExampleBudget(), PeriodRange(ExampleBudget(), day)) == 900
      && Evaluate([ExampleBudget()], ts, [], Call(7, ctx, now), Faults(false, {}))
         == [ExceededNotice(7, ExampleBudget(), 1000, 1200, now)]
  {
    ExampleSpentTwo(600, 300, day);
    ExampleAddedRowCountedTwice(600, 300, day, now);
  }
}
