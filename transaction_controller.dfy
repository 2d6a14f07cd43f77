/** The transaction handlers: add (required fields, insert, a
    "New transaction" notification, the exceeded check), delete and update of
    one row by id (id parsing, ownership, the 404 / 403 choice) and the bulk
    import (column whitelist, all-or-nothing insert).  The id of a delete or
    update is the URL text, read by `Number` and `parseInt`; body values and
    CSV cells are stored as given. */
module TransactionController {
  import opened Wrappers
  import opened JsText
  import opened Store
  import opened BudgetNotifications
  import BudgetProperties

  // ---------------------------------------------------------------------
  // Add

  /** `merchant`, `amount`, `category_id` and `transaction_date` must all be truthy. */
  predicate HasRequired(body: Object) {
    && Truthy(Field(body, "merchant")) && Truthy(Field(body, "amount"))
    && Truthy(Field(body, "category_id")) && Truthy(Field(body, "transaction_date"))
  }

  /** The inserted row; the currency falls back to `"INR"`. */
  function NewTransactionRow(id: int, userId: int, body: Object): Transaction {
    Transaction(id, userId, Field(body, "category_id"), Field(body, "type"), Field(body, "amount"),
                Or(Field(body, "currency"), Str("INR")), Field(body, "description"), Field(body, "merchant"),
                Field(body, "transaction_date"))
  }

  /** The low-priority notice about a new transaction; it names the merchant,
      else the description. */
  function TransactionNotice(userId: int, body: Object, now: int): Notification {
    var about := Or(Field(body, "merchant"), Field(body, "description"));
    Notification(userId, "New transaction", TransactionMsg(Field(body, "amount"), about), "transaction", Low,
                 "/transactions", None, now)
  }

  /** The notifications table after the add handler: the notice (unless its
      insert fails), then the evaluator on the inserted row. */
  function AddLog(bs: seq<Budget>, ts: seq<Transaction>, log: seq<Notification>, userId: int, row: Transaction,
                  body: Object, now: int, noticeFails: bool, faults: Faults): seq<Notification> {
    var log1 := if noticeFails then log else log + [TransactionNotice(userId, body, now)];
    Evaluate(bs, ts, log1, Call(userId, TransactionContext(row), now), faults)
  }

  /** The add handler.  Missing required fields give 400 and change nothing;
      otherwise the row is inserted first and then evaluated, and the answer
      is 201 whatever the notice insert and the exceeded check do. */
  method AddTransaction(db: Database, userId: int, body: Object, now: int, noticeFails: bool, faults: Faults)
    returns (status: int, created: Option<Transaction>)
    requires db.Valid()
    modifies db`transactions, db`nextTransactionId, db`notifications
    ensures db.Valid() && db.budgets == old(db.budgets)
    ensures !HasRequired(body) ==>
      status == 400 && created.None? && db.transactions == old(db.transactions)
      && db.nextTransactionId == old(db.nextTransactionId) && db.notifications == old(db.notifications)
    ensures HasRequired(body) ==>
      && status == 201
      && created == Some(NewTransactionRow(old(db.nextTransactionId), userId, body))
      && db.transactions == old(db.transactions) + [created.value]
      && db.nextTransactionId == old(db.nextTransactionId) + 1
      && db.notifications == AddLog(db.budgets, db.transactions, old(db.notifications), userId, created.value, body, now, noticeFails, faults)
  {
    if !HasRequired(body) {
      return 400, None;
    }
    var row := NewTransactionRow(db.nextTransactionId, userId, body);
    db.transactions := db.transactions + [row];
    db.nextTransactionId := db.nextTransactionId + 1;
    if !noticeFails {
      db.notifications := db.notifications + [TransactionNotice(userId, body, now)];
    }
    CheckBudgetsAndNotify(db, userId, TransactionContext(row), now, faults);
    return 201, Some(row);
  }

  /** Because the row is inserted before the evaluator runs, an expense dated
      inside a budget's window is counted twice: once by the period sum,
      which already holds the new row, and once more as the context's own
      amount. */
  lemma AddedExpenseCountedTwice(ts: seq<Transaction>, id: int, userId: int, body: Object, b: Budget, w: Window,
                                 today: int, a: int, d: int)
    requires Field(body, "type") == Str("expense") && Field(body, "amount") == Num(a)
    requires Field(body, "transaction_date") == Date(d) && InWindow(d, w)
    requires SpendCategory(b).Some? ==> Field(body, "category_id") == Num(SpendCategory(b).value)
    ensures var t := NewTransactionRow(id, userId, body);
      NewSpent(Spent(ts + [t], userId, b, w), TransactionContext(t), w, today) == Some(Spent(ts, userId, b, w) + 2 * a)
  {
    var t := NewTransactionRow(id, userId, body);
    BudgetProperties.SpentAppend(ts, t, userId, b, w);
    assert Counts(t, userId, b, w);
    BudgetProperties.NewSpentInWindow(Spent(ts + [t], userId, b, w), TransactionContext(t), w, today, a);
  }

  /** An amount of 0 (or any other falsy required field) is refused. */
  lemma ZeroAmountRejected(body: Object)
    requires Field(body, "amount") == Num(0)
    ensures !HasRequired(body)
  {
  }

  /** A request without `currency`, or with an empty one, is stored as INR;
      a given currency is kept. */
  lemma CurrencyDefault(id: int, userId: int, body: Object)
    ensures !Truthy(Field(body, "currency")) ==> NewTransactionRow(id, userId, body).currency == Str("INR")
    ensures Truthy(Field(body, "currency")) ==> NewTransactionRow(id, userId, body).currency == body["currency"]
  {
  }

  // ---------------------------------------------------------------------
  // Id parsing

  /** `Number.isFinite(Number(raw)) ? parseInt(raw, 10) : null`; `None` is
      null or NaN.  Text that is NaN or too large for a double is refused,
      blank text is refused by `parseInt`, and an integer written in decimal
      is that integer. */
  function ParseId(raw: string): (r: Option<int>)
    ensures StringToNumber(raw).NaN? || StringToNumber(raw).Infinite? ==> r.None?
    ensures Trim(raw) == [] ==> r.None?
    ensures IsFiniteNumber(raw) && IsSignedInteger(Trim(raw)) ==> r == Some(SignedIntegerValue(Trim(raw)))
    ensures r.Some? ==> IsFiniteNumber(raw)
  {
    if IsFiniteNumber(raw) then
      if IsSignedInteger(Trim(raw)) then
        ParseIntOfSignedInteger(raw);
        ParseInt(raw)
      else ParseInt(raw)
    else None
  }

  /** `!transactionId` fails for null, NaN and 0. */
  predicate UsableId(r: Option<int>) {
    r.Some? && r.value != 0
  }

  /** Decimal text of a safe integer above the `integer` range, such as
      "3000000000", is a usable id that the column cannot hold. */
  lemma LargeIdOutOfRange(n: int)
    requires Int4Max < n <= MaxSafeInteger
    ensures UsableId(ParseId(IntToString(n))) && !IsInt4(ParseId(IntToString(n)).value)
  {
    ParseIdOfString(n);
  }

  /** The decimal text of a safe integer parses back to it. */
  lemma ParseIdOfString(n: int)
    requires -MaxSafeInteger <= n <= MaxSafeInteger
    ensures ParseId(IntToString(n)) == Some(n)
  {
    NumberOfString(n);
    IntStringShape(n);
  }

  /** `"1e400"` is Infinity: refused with 400 rather than read as 1. */
  lemma OverflowingIdRefused()
    ensures ParseId("1e400") == None
  {
    OverflowExample();
  }

  /** `"abc"` is NaN: refused with 400. */
  lemma TextIdRefused()
    ensures ParseId("abc") == None
  {
    LettersExample();
  }

  /** `parseInt` stops at the exponent: `"1e3"` names transaction 1. */
  lemma ExponentId()
    ensures ParseId("1e3") == Some(1)
  {
    ExponentExample();
    ExponentParseInt();
    FiniteIdIsParseInt("1e3");
  }

  /** `parseInt("1e3", 10)` stops at the `e`. */
  lemma ExponentParseInt()
    ensures ParseInt("1e3") == Some(1)
  {
    assert TrimStart("1e3") == "1e3";
    assert DigitPrefix("1e3") == "1";
    assert DigitsValue("1") == 1;
  }

  /** `"0x10"` is the finite number 16, but `parseInt` reads 0, which
      `!transactionId` refuses. */
  lemma HexIdRefused()
    ensures ParseId("0x10") == Some(0) && !UsableId(ParseId("0x10"))
  {
    HexExample();
    HexParseInt();
    FiniteIdIsParseInt("0x10");
  }

  /** A finite id is whatever `parseInt` reads. */
  lemma FiniteIdIsParseInt(raw: string)
    requires IsFiniteNumber(raw)
    ensures ParseId(raw) == ParseInt(raw)
  {
  }

  /** `parseInt("0x10", 10)` stops at the `x`. */
  lemma HexParseInt()
    ensures ParseInt("0x10") == Some(0)
  {
    assert TrimStart("0x10") == "0x10";
    assert DigitPrefix("0x10") == "0";
    assert DigitsValue("0") == 0;
  }

  // ---------------------------------------------------------------------
  // Ownership and the 404 / 403 choice

  predicate HasId(ts: seq<Transaction>, id: int) {
    exists i :: 0 <= i < |ts| && ts[i].id == id
  }

  /** `transaction_id = $1 AND user_id = $2`; a null caller owns nothing. */
  predicate Owns(t: Transaction, id: int, caller: Option<int>) {
    t.id == id && caller == Some(t.userId)
  }

  predicate HasOwned(ts: seq<Transaction>, id: int, caller: Option<int>) {
    exists i :: 0 <= i < |ts| && Owns(ts[i], id, caller)
  }

  /** The status when the write touched no row: 404 when no row has the id,
      403 when one does but belongs to someone else. */
  function MissStatus(ts: seq<Transaction>, id: int): int {
    if HasId(ts, id) then 403 else 404
  }

  function WithoutOwned(ts: seq<Transaction>, id: int, caller: Option<int>): (r: seq<Transaction>)
    ensures forall t :: t in r <==> t in ts && !Owns(t, id, caller)
    ensures |r| <= |ts|
  {
    if ts == [] then []
    else if Owns(ts[0], id, caller) then WithoutOwned(ts[1..], id, caller)
    else [ts[0]] + WithoutOwned(ts[1..], id, caller)
  }

  /** The delete removes a row exactly when the caller owns a row with that id. */
  lemma {:induction false} DeleteRemovesIffOwned(ts: seq<Transaction>, id: int, caller: Option<int>)
    ensures |WithoutOwned(ts, id, caller)| < |ts| <==> HasOwned(ts, id, caller)
  {
    if ts != [] {
      DeleteRemovesIffOwned(ts[1..], id, caller);
      if HasOwned(ts[1..], id, caller) {
        var i :| 0 <= i < |ts[1..]| && Owns(ts[1..][i], id, caller);
        assert Owns(ts[i + 1], id, caller);
      }
      if !Owns(ts[0], id, caller) && HasOwned(ts, id, caller) {
        var i :| 0 <= i < |ts| && Owns(ts[i], id, caller);
        assert Owns(ts[1..][i - 1], id, caller);
      }
    }
  }

  /** The delete handler.  A bad id gives 400; an id the `integer` column
      cannot hold makes the query fail (500); otherwise the caller's row with
      that id is removed (200), or nothing changes and the answer is 404 or
      403. */
  method DeleteTransaction(db: Database, caller: Option<int>, rawId: string) returns (status: int)
    requires db.Valid()
    modifies db`transactions
    ensures db.Valid()
    ensures !UsableId(ParseId(rawId)) ==> status == 400 && db.transactions == old(db.transactions)
    ensures UsableId(ParseId(rawId)) && !IsInt4(ParseId(rawId).value) ==>
      status == 500 && db.transactions == old(db.transactions)
    ensures UsableId(ParseId(rawId)) && IsInt4(ParseId(rawId).value) ==>
      var id := ParseId(rawId).value;
      && db.transactions == WithoutOwned(old(db.transactions), id, caller)
      && status == (if HasOwned(old(db.transactions), id, caller) then 200 else MissStatus(old(db.transactions), id))
  {
    var parsed := ParseId(rawId);
    if !UsableId(parsed) {
      return 400;
    }
    var id := parsed.value;
    if !IsInt4(id) {
      return 500;
    }
    var was := db.transactions;
    var deleted := HasOwned(db.transactions, id, caller);
    db.transactions := WithoutOwned(db.transactions, id, caller);
    forall i | 0 <= i < |db.transactions|
      ensures 0 < db.transactions[i].id < db.nextTransactionId
    {
      assert db.transactions[i] in was;
    }
    if !deleted {
      status := MissStatus(was, id);
    } else {
      status := 200;
    }
  }

  // ---------------------------------------------------------------------
  // Update

  /** The keys an update may set, in the order the handler copies them. */
  const UpdateKeys: seq<string> := ["merchant", "category_id", "type", "amount", "currency", "transaction_date", "description"]

  /** The payload: every allowed key the body has, with its value. */
  method BuildPayload(body: Object) returns (payload: map<string, Value>)
    ensures forall k :: k in payload <==> k in body && k in UpdateKeys
    ensures forall k :: k in payload ==> payload[k] == body[k]
  {
    payload := map[];
    var i := 0;
    while i < |UpdateKeys|
      invariant 0 <= i <= |UpdateKeys|
      invariant forall k :: k in payload <==> k in body && k in UpdateKeys[..i]
      invariant forall k :: k in payload ==> payload[k] == body[k]
    {
      var k := UpdateKeys[i];
      if k in body {
        payload := payload[k := body[k]];
      }
      i := i + 1;
    }
    assert UpdateKeys[..|UpdateKeys|] == UpdateKeys;
  }

  /** The payload is the body restricted to the allowed keys; it is empty
      exactly when the body has none of them. */
  lemma PayloadFacts(body: Object, payload: map<string, Value>)
    requires forall k :: k in payload <==> k in body && k in UpdateKeys
    requires forall k :: k in payload ==> payload[k] == body[k]
    ensures payload == map k | k in body && k in UpdateKeys :: body[k]
    ensures |payload| == 0 <==> forall k :: k in UpdateKeys ==> k !in body
  {
    if |payload| != 0 {
      var k :| k in payload;
      assert k in UpdateKeys && k in body;
    }
  }

  function Pick(p: map<string, Value>, k: string, old_: Value): Value {
    if k in p then p[k] else old_
  }

  /** The row after `SET` of the payload's columns. */
  function ApplyPayload(t: Transaction, p: map<string, Value>): Transaction {
    t.(merchant := Pick(p, "merchant", t.merchant), categoryId := Pick(p, "category_id", t.categoryId),
       kind := Pick(p, "type", t.kind), amount := Pick(p, "amount", t.amount),
       currency := Pick(p, "currency", t.currency), date := Pick(p, "transaction_date", t.date),
       description := Pick(p, "description", t.description))
  }

  /** A column is overwritten exactly when its key is in the payload; id and
      owner never change; applying the same payload twice is applying it once. */
  lemma ApplyPayloadFacts(t: Transaction, p: map<string, Value>)
    ensures var u := ApplyPayload(t, p);
      && u.id == t.id && u.userId == t.userId
      && (u.amount == if "amount" in p then p["amount"] else t.amount)
      && (u.merchant == if "merchant" in p then p["merchant"] else t.merchant)
      && (u.kind == if "type" in p then p["type"] else t.kind)
      && ApplyPayload(u, p) == u
  {
  }

  function UpdateOwned(ts: seq<Transaction>, id: int, caller: Option<int>, p: map<string, Value>): (r: seq<Transaction>)
    ensures |r| == |ts|
    ensures forall i :: 0 <= i < |ts| ==> r[i] == if Owns(ts[i], id, caller) then ApplyPayload(ts[i], p) else ts[i]
  {
    if ts == [] then []
    else [if Owns(ts[0], id, caller) then ApplyPayload(ts[0], p) else ts[0]] + UpdateOwned(ts[1..], id, caller, p)
  }

  /** The update handler: 400 for a bad id or an empty payload; 500 when the
      `integer` column cannot hold the id; otherwise the caller's row with
      that id gets the payload (200), or nothing changes and the answer is
      404 or 403. */
  method UpdateTransaction(db: Database, caller: Option<int>, rawId: string, body: Object) returns (status: int)
    requires db.Valid()
    modifies db`transactions
    ensures db.Valid()
    ensures !UsableId(ParseId(rawId)) ==> status == 400 && db.transactions == old(db.transactions)
    ensures UsableId(ParseId(rawId)) && (forall k :: k in UpdateKeys ==> k !in body) ==>
      status == 400 && db.transactions == old(db.transactions)
    ensures UsableId(ParseId(rawId)) && (exists k :: k in UpdateKeys && k in body) && !IsInt4(ParseId(rawId).value) ==>
      status == 500 && db.transactions == old(db.transactions)
    ensures UsableId(ParseId(rawId)) && (exists k :: k in UpdateKeys && k in body) && IsInt4(ParseId(rawId).value) ==>
      var id := ParseId(rawId).value;
      && db.transactions == UpdateOwned(old(db.transactions), id, caller, map k | k in body && k in UpdateKeys :: body[k])
      && status == (if HasOwned(old(db.transactions), id, caller) then 200 else MissStatus(old(db.transactions), id))
  {
    var parsed := ParseId(rawId);
    if !UsableId(parsed) {
      return 400;
    }
    var payload := BuildPayload(body);
    PayloadFacts(body, payload);
    if |payload| == 0 {
      return 400;
    }
    var id := parsed.value;
    if !IsInt4(id) {
      return 500;
    }
    var updated := HasOwned(db.transactions, id, caller);
    var was := db.transactions;
    db.transactions := UpdateOwned(db.transactions, id, caller, payload);
    if !updated {
      status := MissStatus(was, id);
    } else {
      status := 200;
    }
  }

  // ---------------------------------------------------------------------
  // Import

  /** A CSV row as its keys and cells in `Object.keys` order. */
  type Row = seq<(string, Value)>

  /** The seven columns an imported row may have. */
  const ImportColumns: seq<string> := ["category_id", "transaction_type", "amount", "currency", "description", "merchant", "transaction_date"]

  /** `row.key` (the last cell with that key, as `JSON.parse` keeps it). */
  function Cell(row: Row, k: string): Value {
    if row == [] then Null
    else if row[|row| - 1].0 == k then row[|row| - 1].1
    else Cell(row[..|row| - 1], k)
  }

  /** The first key, row by row, that is not an allowed column. */
  function FirstInvalidKey(rows: seq<Row>): (r: Option<string>)
    ensures r.Some? ==> r.value !in ImportColumns
    ensures r.Some? ==> exists i, j :: 0 <= i < |rows| && 0 <= j < |rows[i]| && rows[i][j].0 == r.value
    ensures r.None? <==> forall i, j :: 0 <= i < |rows| && 0 <= j < |rows[i]| ==> rows[i][j].0 in ImportColumns
  {
    if rows == [] then None
    else
      match FirstInvalidInRow(rows[0])
      case Some(k) => Some(k)
      case None =>
        var r := FirstInvalidKey(rows[1..]);
        assert forall i :: 1 <= i < |rows| ==> rows[i] == rows[1..][i - 1];
        r
  }

  function FirstInvalidInRow(row: Row): (r: Option<string>)
    ensures r.Some? ==> r.value !in ImportColumns && exists j :: 0 <= j < |row| && row[j].0 == r.value
    ensures r.None? <==> forall j :: 0 <= j < |row| ==> row[j].0 in ImportColumns
  {
    if row == [] then None
    else if row[0].0 !in ImportColumns then Some(row[0].0)
    else
      var r := FirstInvalidInRow(row[1..]);
      assert forall j :: 1 <= j < |row| ==> row[j] == row[1..][j - 1];
      r
  }

  /** `x || null`. */
  function OrNull(v: Value): (r: Value)
    ensures Truthy(v) ==> r == v
    ensures !Truthy(v) ==> r == Null
  {
    Or(v, Null)
  }

  /** The row the import inserts for one CSV row. */
  function ImportedRow(id: int, userId: int, row: Row): Transaction {
    Transaction(id, userId, OrNull(Cell(row, "category_id")),
                OrNull(Or(Cell(row, "transaction_type"), Cell(row, "type"))),
                OrNull(Cell(row, "amount")), OrNull(Cell(row, "currency")), OrNull(Cell(row, "description")),
                OrNull(Cell(row, "merchant")), OrNull(Cell(row, "transaction_date")))
  }

  function ImportedRows(firstId: int, userId: int, rows: seq<Row>): (r: seq<Transaction>)
    ensures |r| == |rows|
    ensures forall i :: 0 <= i < |rows| ==> r[i] == ImportedRow(firstId + i, userId, rows[i])
    decreases |rows|
  {
    if rows == [] then [] else [ImportedRow(firstId, userId, rows[0])] + ImportedRows(firstId + 1, userId, rows[1..])
  }

  datatype ImportOutcome = NoData | InvalidColumn(key: string) | Imported(inserted: int) | RolledBack

  /** The import handler.  `rows` is `None` when missing or not an array;
      `failAt` is the index of a row whose insert fails.  Nothing is inserted
      unless every row is. */
  method ImportTransactions(db: Database, userId: int, rows: Option<seq<Row>>, failAt: Option<int>) returns (outcome: ImportOutcome)
    requires db.Valid()
    modifies db`transactions, db`nextTransactionId
    ensures db.Valid() && db.nextTransactionId >= old(db.nextTransactionId)
    ensures rows.None? || rows.value == [] ==> outcome == NoData && db.transactions == old(db.transactions)
    ensures rows.Some? && rows.value != [] && FirstInvalidKey(rows.value).Some? ==>
      outcome == InvalidColumn(FirstInvalidKey(rows.value).value) && db.transactions == old(db.transactions)
    ensures rows.Some? && rows.value != [] && FirstInvalidKey(rows.value).None? ==>
      if failAt.Some? && 0 <= failAt.value < |rows.value| then
        outcome == RolledBack && db.transactions == old(db.transactions)
      else
        && outcome == Imported(|rows.value|)
        && db.transactions == old(db.transactions) + ImportedRows(old(db.nextTransactionId), userId, rows.value)
  {
    if rows.None? || |rows.value| == 0 {
      return NoData;
    }
    var bad := FirstInvalidKey(rows.value);
    if bad.Some? {
      return InvalidColumn(bad.value);
    }
    var rolledBack := InsertRows(db, userId, rows.value, failAt);
    outcome := if rolledBack then RolledBack else Imported(|rows.value|);
  }

  /** The insert loop inside the import's transaction: each row takes the
      next id; when the insert of row `failAt` fails the table is restored
      (the id sequence is not). */
  method InsertRows(db: Database, userId: int, rs: seq<Row>, failAt: Option<int>) returns (rolledBack: bool)
    requires db.Valid()
    modifies db`transactions, db`nextTransactionId
    ensures db.Valid() && db.nextTransactionId >= old(db.nextTransactionId)
    ensures rolledBack <==> failAt.Some? && 0 <= failAt.value < |rs|
    ensures rolledBack ==> db.transactions == old(db.transactions)
    ensures !rolledBack ==>
      db.transactions == old(db.transactions) + ImportedRows(old(db.nextTransactionId), userId, rs)
  {
    ghost var firstId := db.nextTransactionId;
    var saved := db.transactions;
    assert forall i :: 0 <= i < |saved| ==> 0 < saved[i].id < firstId;
    var inserted := 0;
    while inserted < |rs|
      invariant 0 <= inserted <= |rs|
      invariant db.nextTransactionId == firstId + inserted
      invariant db.transactions == saved + ImportedRows(firstId, userId, rs[..inserted])
      invariant failAt.Some? && 0 <= failAt.value < |rs| ==> inserted <= failAt.value
      invariant db.Valid()
    {
      if failAt == Some(inserted) {
        // ROLLBACK: the table is restored; the id sequence is not
        db.transactions := saved;
        return true;
      }
      AppendImported(db, userId, rs, inserted, firstId, saved);
      inserted := inserted + 1;
    }
    assert rs[..inserted] == rs;
    return false;
  }

  /** One insert of the loop: row `k` takes the next id and is appended. */
  method AppendImported(db: Database, userId: int, rs: seq<Row>, k: int, ghost firstId: int, ghost saved: seq<Transaction>)
    requires db.Valid() && 0 <= k < |rs|
    requires db.nextTransactionId == firstId + k
    requires db.transactions == saved + ImportedRows(firstId, userId, rs[..k])
    modifies db`transactions, db`nextTransactionId
    ensures db.Valid()
    ensures db.nextTransactionId == old(db.nextTransactionId) + 1
    ensures db.transactions == saved + ImportedRows(firstId, userId, rs[..k + 1])
  {
    ImportedRowsAppend(firstId, userId, rs[..k], rs[k]);
    assert rs[..k + 1] == rs[..k] + [rs[k]];
    var row := rs[k];
    db.transactions := db.transactions + [ImportedRow(db.nextTransactionId, userId, row)];
    db.nextTransactionId := db.nextTransactionId + 1;
  }

  lemma ImportedRowsAppend(firstId: int, userId: int, rows: seq<Row>, row: Row)
    ensures ImportedRows(firstId, userId, rows + [row])
         == ImportedRows(firstId, userId, rows) + [ImportedRow(firstId + |rows|, userId, row)]
  {
    var a := ImportedRows(firstId, userId, rows + [row]);
    var b := ImportedRows(firstId, userId, rows) + [ImportedRow(firstId + |rows|, userId, row)];
    assert forall i :: 0 <= i < |rows| ==> (rows + [row])[i] == rows[i];
    assert |a| == |b|;
    assert forall i :: 0 <= i < |a| ==> a[i] == b[i];
  }

  /** Once every key is an allowed column no row has a `type` key, so an
      imported row's type is its `transaction_type` or null: the `type`
      fallback never applies. */
  lemma {:induction false} ImportTypeIsTransactionType(rows: seq<Row>, firstId: int, userId: int, i: int)
    requires FirstInvalidKey(rows).None? && 0 <= i < |rows|
    ensures ImportedRows(firstId, userId, rows)[i].kind == OrNull(Cell(rows[i], "transaction_type"))
  {
    assert forall j :: 0 <= j < |rows[i]| ==> rows[i][j].0 in ImportColumns;
    NoCellOutside(rows[i], "type");
  }

  /** A key that no cell of the row has reads as `Null`. */
  lemma {:induction false} NoCellOutside(row: Row, k: string)
    requires forall j :: 0 <= j < |row| ==> row[j].0 != k
    ensures Cell(row, k) == Null
  {
    if row != [] {
      NoCellOutside(row[..|row| - 1], k);
    }
  }
}
