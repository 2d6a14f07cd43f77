/** The budget routes: listing the caller's budgets, creating a budget
    (duplicate check, insert, "Budget Created" notification, exceeded check)
    and deleting a budget of the caller.  Request body values arrive already
    cast to the column types; the id of a delete is the URL text.  The
    caller's id is the authenticated `user_id`. */
module BudgetRoutes {
  import opened Wrappers
  import opened Store
  import opened BudgetNotifications

  /** The body of a create request, as column values; `None` is NULL. */
  datatype BudgetRequest = BudgetRequest(categoryId: Option<int>, amount: Option<int>, month: Option<YearMonth>, description: Value)

  /** The column defaults a new row receives for the fields the insert does
      not name (period type and start day, active flag). */
  datatype ColumnDefaults = ColumnDefaults(periodType: Option<string>, periodStartDay: Option<int>, active: bool)

  // ---------------------------------------------------------------------
  // POST /api/budgets

  /** `user_id=$1 AND category_id=$2 AND month=$3`: SQL `=` is never true
      against NULL, so a request without category or month matches nothing. */
  predicate SameSlot(b: Budget, userId: int, req: BudgetRequest) {
    && b.userId == userId
    && req.categoryId.Some? && b.categoryId == req.categoryId
    && req.month.Some? && b.month == req.month
  }

  predicate IsDuplicate(bs: seq<Budget>, userId: int, req: BudgetRequest) {
    exists i :: 0 <= i < |bs| && SameSlot(bs[i], userId, req)
  }

  /** The row `INSERT ... RETURNING *` yields. */
  function NewBudgetRow(id: int, userId: int, req: BudgetRequest, defaults: ColumnDefaults): Budget {
    Budget(id, userId, req.categoryId, req.amount, req.month, defaults.periodType, defaults.periodStartDay,
           defaults.active, req.description)
  }

  /** The low-priority notice written after a budget is created; it has no
      `data` column. */
  function CreatedNotice(userId: int, req: BudgetRequest, now: int): Notification {
    Notification(userId, "Budget Created", CreatedMsg(OptionalNumber(req.amount), req.month), "budget", Low, "/budgets", None, now)
  }

  function OptionalNumber(v: Option<int>): (r: Value)
    ensures v.None? <==> r == Null
    ensures v.Some? ==> r == Num(v.value)
  {
    match v
    case Some(n) => Num(n)
    case None => Null
  }

  /** The evaluator's context: exactly `{category_id, amount, month}`. */
  function CreationContext(req: BudgetRequest): (ctx: Context)
    ensures ctx.kind == Null && ctx.transactionDate == Null && ctx.month == req.month
  {
    Context(OptionalNumber(req.categoryId), OptionalNumber(req.amount), req.month, Null, Null)
  }

  /** The notifications table after the create handler's two notification
      steps: the created notice (unless its insert fails) and then the
      evaluator. */
  function CreateLog(bs: seq<Budget>, ts: seq<Transaction>, log: seq<Notification>, userId: int, req: BudgetRequest,
                     now: int, noticeFails: bool, faults: Faults): seq<Notification> {
    var log1 := if noticeFails then log else log + [CreatedNotice(userId, req, now)];
    Evaluate(bs, ts, log1, Call(userId, CreationContext(req), now), faults)
  }

  /** The create handler.  A duplicate returns 400 and changes nothing;
      otherwise one row is inserted and 201 is returned, whatever happens to
      the notice insert and the exceeded check. */
  method CreateBudget(db: Database, userId: int, req: BudgetRequest, defaults: ColumnDefaults, now: int,
                      noticeFails: bool, faults: Faults) returns (status: int)
    requires db.Valid()
    modifies db`budgets, db`nextBudgetId, db`notifications
    ensures db.Valid() && db.transactions == old(db.transactions)
    ensures IsDuplicate(old(db.budgets), userId, req) ==>
      status == 400 && db.budgets == old(db.budgets) && db.nextBudgetId == old(db.nextBudgetId)
      && db.notifications == old(db.notifications)
    ensures !IsDuplicate(old(db.budgets), userId, req) ==>
      && status == 201
      && db.budgets == old(db.budgets) + [NewBudgetRow(old(db.nextBudgetId), userId, req, defaults)]
      && db.nextBudgetId == old(db.nextBudgetId) + 1
      && db.notifications == CreateLog(db.budgets, db.transactions, old(db.notifications), userId, req, now, noticeFails, faults)
  {
    var dup := FindDuplicate(db, userId, req);
    if dup {
      return 400;
    }
    var row := NewBudgetRow(db.nextBudgetId, userId, req, defaults);
    db.budgets := db.budgets + [row];
    db.nextBudgetId := db.nextBudgetId + 1;
    if !noticeFails {
      db.notifications := db.notifications + [CreatedNotice(userId, req, now)];
    }
    CheckBudgetsAndNotify(db, userId, CreationContext(req), now, faults);
    status := 201;
  }

  /** The duplicate query: whether any row shares the request's slot. */
  method FindDuplicate(db: Database, userId: int, req: BudgetRequest) returns (found: bool)
    ensures found <==> IsDuplicate(db.budgets, userId, req)
  {
    found := false;
    var i := 0;
    while i < |db.budgets|
      invariant 0 <= i <= |db.budgets|
      invariant found <==> exists k :: 0 <= k < i && SameSlot(db.budgets[k], userId, req)
    {
      if SameSlot(db.budgets[i], userId, req) {
        found := true;
      }
      i := i + 1;
    }
  }

  // ---------------------------------------------------------------------
  // Properties of creation

  /** After a create with category and month the slot is taken, so creating
      the same request again is refused. */
  lemma {:induction false} CreatedSlotIsTaken(bs: seq<Budget>, id: int, userId: int, req: BudgetRequest, defaults: ColumnDefaults)
    requires req.categoryId.Some? && req.month.Some?
    ensures IsDuplicate(bs + [NewBudgetRow(id, userId, req, defaults)], userId, req)
  {
    var bs2 := bs + [NewBudgetRow(id, userId, req, defaults)];
    assert SameSlot(bs2[|bs|], userId, req);
  }

  /** Without a category (or without a month) a request is never a duplicate,
      so any number of such budgets can be created for the same month. */
  lemma NullSlotNeverDuplicate(bs: seq<Budget>, userId: int, req: BudgetRequest)
    requires req.categoryId.None? || req.month.None?
    ensures !IsDuplicate(bs, userId, req)
  {
  }

  /** The created notice carries no `data`, so it never counts as a recent
      budget notice for the 12-hour dedupe. */
  lemma CreatedNoticeNeverDedupes(userId: int, req: BudgetRequest, now: int, uid: int, budgetId: int, at: int)
    ensures !IsRecentBudgetNotice(CreatedNotice(userId, req, now), uid, budgetId, at)
  {
  }

  /** With a non-zero amount, a month and a category that is missing or
      non-zero, the evaluator called after creation looks at exactly the new
      budget: it is the caller's newest budget for that month and category. */
  lemma CreationEvaluatesNewBudget(bs: seq<Budget>, id: int, userId: int, req: BudgetRequest, defaults: ColumnDefaults)
    requires forall i :: 0 <= i < |bs| ==> bs[i].id < id
    requires req.amount.Some? && req.amount.value != 0 && req.month.Some?
    requires req.categoryId.None? || req.categoryId.value != 0
    ensures Candidates(bs + [NewBudgetRow(id, userId, req, defaults)], userId, CreationContext(req))
         == [NewBudgetRow(id, userId, req, defaults)]
  {
    var row := NewBudgetRow(id, userId, req, defaults);
    var bs2 := bs + [row];
    var ctx := CreationContext(req);
    assert IsCreationContext(ctx);
    var cat := CategoryParam(ctx.categoryId);
    assert cat == req.categoryId;
    assert CreationMatch(row, userId, cat, req.month.value);
    assert bs2[|bs|] == row;
    var r := LatestMatching(bs2, userId, cat, req.month.value);
    assert r.Some?;
    assert row.id <= r.value.id;
  }

  // ---------------------------------------------------------------------
  // GET /api/budgets

  /** Position in `ORDER BY month DESC`: PostgreSQL puts NULLs first in
      descending order, then later months before earlier ones. */
  predicate MonthFirst(a: Option<YearMonth>, b: Option<YearMonth>) {
    a.None? || (b.Some? && (a.value.year > b.value.year || (a.value.year == b.value.year && a.value.month >= b.value.month)))
  }

  predicate SortedByMonthDesc(bs: seq<Budget>) {
    forall i, j :: 0 <= i < j < |bs| ==> MonthFirst(bs[i].month, bs[j].month)
  }

  /** The caller's rows, in table order. */
  function OwnedBy(bs: seq<Budget>, userId: int): (r: seq<Budget>)
    ensures forall b :: b in r <==> b in bs && b.userId == userId
    ensures |r| <= |bs|
  {
    if bs == [] then []
    else if bs[0].userId == userId then [bs[0]] + OwnedBy(bs[1..], userId)
    else OwnedBy(bs[1..], userId)
  }

  /** Inserts `b` before the first row it may precede. */
  function InsertByMonth(b: Budget, s: seq<Budget>): (r: seq<Budget>)
    ensures multiset(r) == multiset(s) + multiset{b}
  {
    if s == [] || MonthFirst(b.month, s[0].month) then [b] + s
    else
      assert s == [s[0]] + s[1..];
      [s[0]] + InsertByMonth(b, s[1..])
  }

  /** Inserting into a sorted listing keeps it sorted. */
  lemma {:induction false} InsertKeepsSorted(b: Budget, s: seq<Budget>)
    requires SortedByMonthDesc(s)
    ensures SortedByMonthDesc(InsertByMonth(b, s))
  {
    if s != [] && !MonthFirst(b.month, s[0].month) {
      var rest := InsertByMonth(b, s[1..]);
      InsertKeepsSorted(b, s[1..]);
      var r := [s[0]] + rest;
      assert r == InsertByMonth(b, s);
      forall j | 1 <= j < |r|
        ensures MonthFirst(s[0].month, r[j].month)
      {
        assert r[j] in multiset(rest);
        assert r[j] in multiset(s[1..]) + multiset{b};
        if r[j] != b {
          assert r[j] in s[1..];
        }
      }
    }
  }

  /** One order the database may return: month descending, ties in table order. */
  function SortByMonthDesc(bs: seq<Budget>): (r: seq<Budget>)
    ensures multiset(r) == multiset(bs)
    ensures SortedByMonthDesc(r)
  {
    if bs == [] then []
    else
      assert bs == [bs[0]] + bs[1..];
      InsertKeepsSorted(bs[0], SortByMonthDesc(bs[1..]));
      InsertByMonth(bs[0], SortByMonthDesc(bs[1..]))
  }

  /** The list handler: the caller's budgets and no others, month descending. */
  method ListBudgets(db: Database, userId: int) returns (rows: seq<Budget>)
    ensures multiset(rows) == multiset(OwnedBy(db.budgets, userId))
    ensures forall b :: b in rows <==> b in db.budgets && b.userId == userId
    ensures SortedByMonthDesc(rows)
  {
    rows := SortByMonthDesc(OwnedBy(db.budgets, userId));
    forall b ensures b in rows <==> b in OwnedBy(db.budgets, userId) {
      assert b in rows <==> b in multiset(rows);
    }
  }

  // ---------------------------------------------------------------------
  // DELETE /api/budgets/:id

  /** `budget_id=$1 AND user_id=$2`. */
  predicate Doomed(b: Budget, id: int, userId: int) {
    b.id == id && b.userId == userId
  }

  function Remaining(bs: seq<Budget>, id: int, userId: int): (r: seq<Budget>)
    ensures forall b :: b in r <==> b in bs && !Doomed(b, id, userId)
    ensures |r| <= |bs|
  {
    if bs == [] then []
    else if Doomed(bs[0], id, userId) then Remaining(bs[1..], id, userId)
    else [bs[0]] + Remaining(bs[1..], id, userId)
  }

  /** The delete handler.  The id is the URL segment, which the query casts
      to `integer`: text that does not cast fails the query and the handler
      answers 500 with the table unchanged; otherwise only the caller's row
      with that id is removed, and the answer is 200 even when nothing
      matched. */
  method DeleteBudget(db: Database, userId: int, rawId: string) returns (status: int)
    requires db.Valid()
    modifies db`budgets
    ensures db.Valid()
    ensures PgInteger(rawId).None? ==> status == 500 && db.budgets == old(db.budgets)
    ensures PgInteger(rawId).Some? ==> status == 200 && db.budgets == Remaining(old(db.budgets), PgInteger(rawId).value, userId)
  {
    var id := PgInteger(rawId);
    if id.None? {
      return 500;
    }
    ghost var was := db.budgets;
    db.budgets := Remaining(db.budgets, id.value, userId);
    forall i | 0 <= i < |db.budgets|
      ensures 0 < db.budgets[i].id < db.nextBudgetId
    {
      assert db.budgets[i] in was;
    }
    status := 200;
  }

  /** Deleting never touches another user's rows, and a budget of another
      user with the same id survives. */
  lemma {:induction false} DeleteKeepsOthers(bs: seq<Budget>, id: int, userId: int)
    ensures OwnedBy(Remaining(bs, id, userId), userId) == Remaining(OwnedBy(bs, userId), id, userId)
    ensures forall u :: u != userId ==> OwnedBy(Remaining(bs, id, userId), u) == OwnedBy(bs, u)
  {
    if bs != [] {
      DeleteKeepsOthers(bs[1..], id, userId);
    }
  }
}
