/** The global currency table and its three writing routes: POST (validate,
    optionally clear every default, then return the existing row, replace it
    with `force`, or insert), PUT `/default` (make exactly one code the
    default) and DELETE `/:code`.  The table has one row per code.  Each
    route runs inside BEGIN / COMMIT, and a ROLLBACK leaves the table as it
    was. */
module CurrencyRoutes {
  import opened Wrappers
  import opened JsText
  import opened Store

  /** A row of `currencies` apart from its code, which is the key. */
  datatype Currency = Currency(name: Value, rate: Value, isDefault: bool)

  type Rows = map<string, Currency>

  function DefaultCodes(rows: Rows): set<string> {
    set k | k in rows && rows[k].isDefault
  }

  /** The invariant the routes keep: at most one row has `is_default = true`. */
  predicate AtMostOneDefault(rows: Rows) {
    forall a, b :: a in rows && b in rows && rows[a].isDefault && rows[b].isDefault ==> a == b
  }

  /** `UPDATE currencies SET is_default = false`. */
  function ClearDefaults(rows: Rows): (r: Rows)
    ensures r.Keys == rows.Keys
    ensures forall k :: k in r ==> r[k] == rows[k].(isDefault := false)
  {
    map k | k in rows :: rows[k].(isDefault := false)
  }

  /** `Number.isNaN(Number(v))`: text that is no numeric literal. */
  predicate IsNaNNumber(v: Value) {
    v.Str? && StringToNumber(v.s).NaN?
  }

  datatype CurrencyRequest = CurrencyRequest(code: Value, name: Value, rate: Value, isDefault: Value, force: Value)

  datatype PostOutcome = Missing | NotANumber | AlreadyExists | Replaced | Inserted

  function PostStatus(o: PostOutcome): int {
    match o
    case Missing => 400
    case NotANumber => 400
    case AlreadyExists => 200
    case Replaced => 200
    case Inserted => 201
  }

  /** The stored code: `String(code).trim().toUpperCase()`. */
  function CodeKey(req: CurrencyRequest): string {
    ToUpper(Trim(TextOf(req.code)))
  }

  /** The validation in front of the transaction. */
  function PostCheck(req: CurrencyRequest): Option<PostOutcome> {
    if !Truthy(req.code) || !Truthy(req.name) || req.rate == Null then Some(Missing)
    else if IsNaNNumber(req.rate) then Some(NotANumber)
    else None
  }

  /** The row a valid POST writes. */
  function RequestedRow(req: CurrencyRequest): Currency {
    Currency(req.name, req.rate, Truthy(req.isDefault))
  }

  /** The table a valid POST for `code` leaves behind: `row` is the row it
      writes, `force` whether it may overwrite an existing one. */
  function PostRows(rows: Rows, code: string, row: Currency, force: bool): (r: Rows)
    ensures r.Keys == rows.Keys + {code}
    ensures code !in rows || force ==> r[code] == row
    ensures code in rows && !force ==> r[code] == rows[code].(isDefault := rows[code].isDefault && !row.isDefault)
  {
    var cleared := if row.isDefault then ClearDefaults(rows) else rows;
    if code in rows && !force then cleared
    else cleared[code := row]
  }

  function PostOutcomeOf(rows: Rows, req: CurrencyRequest): PostOutcome {
    match PostCheck(req)
    case Some(o) => o
    case None =>
      if CodeKey(req) !in rows then Inserted
      else if Truthy(req.force) then Replaced
      else AlreadyExists
  }

  /** `PUT /default`: outcome of a request naming `code`. */
  datatype DefaultOutcome = CodeMissing | NotAString | UnknownCode | DefaultSet

  function DefaultStatus(o: DefaultOutcome): int {
    match o
    case CodeMissing => 400
    case NotAString => 500
    case UnknownCode => 404
    case DefaultSet => 200
  }

  /** Clear every default, then set the requested one. */
  function MakeDefault(rows: Rows, code: string): (r: Rows)
    requires code in rows
  {
    ClearDefaults(rows)[code := rows[code].(isDefault := true)]
  }

  class CurrencyTable {
    var rows: Rows

    ghost predicate Valid()
      reads this
    {
      AtMostOneDefault(rows)
    }

    constructor ()
      ensures Valid() && rows == map[]
    {
      rows := map[];
    }

    /** `POST /api/currencies`: validation, then `Upsert` under the
        trimmed, upper-cased code. */
    method Post(req: CurrencyRequest) returns (status: int, outcome: PostOutcome)
      requires Valid()
      modifies this
      ensures Valid()
      ensures outcome == PostOutcomeOf(old(rows), req) && status == PostStatus(outcome)
      ensures PostCheck(req).Some? ==> rows == old(rows)
      ensures PostCheck(req).None? ==> rows == PostRows(old(rows), CodeKey(req), RequestedRow(req), Truthy(req.force))
    {
      var check := PostCheck(req);
      if check.Some? {
        return PostStatus(check.value), check.value;
      }
      status, outcome := Upsert(CodeKey(req), RequestedRow(req), Truthy(req.force));
    }

    /** The transaction behind POST: clear every default when the new row is
        the default, then keep an existing row (without `force`), overwrite
        it (with `force`) or insert. */
    method Upsert(code: string, row: Currency, force: bool) returns (status: int, outcome: PostOutcome)
      requires Valid()
      modifies this
      ensures Valid()
      ensures rows == PostRows(old(rows), code, row, force)
      ensures outcome == (if code !in old(rows) then Inserted else if force then Replaced else AlreadyExists)
      ensures status == PostStatus(outcome)
    {
      ghost var before := rows;
      if row.isDefault {
        rows := ClearDefaults(rows);
      }
      if code in rows && !force {
        ClearedKeepsAtMostOne(before, row.isDefault);
        return 200, AlreadyExists;
      }
      var existed := code in rows;
      rows := rows[code := row];
      PostKeepsAtMostOneDefault(before, code, row, force);
      if existed {
        return 200, Replaced;
      }
      return 201, Inserted;
    }

    /** `PUT /api/currencies/default`. */
    method SetDefault(currencyCode: Value) returns (status: int, outcome: DefaultOutcome)
      requires Valid()
      modifies this
      ensures Valid()
      ensures status == DefaultStatus(outcome)
      ensures !Truthy(currencyCode) ==> outcome == CodeMissing && rows == old(rows)
      ensures Truthy(currencyCode) && !currencyCode.Str? ==> outcome == NotAString && rows == old(rows)
      ensures Truthy(currencyCode) && currencyCode.Str? ==>
        var code := ToUpper(currencyCode.s);
        if code in old(rows) then outcome == DefaultSet && rows == MakeDefault(old(rows), code)
        else outcome == UnknownCode && rows == old(rows)
    {
      if !Truthy(currencyCode) {
        return 400, CodeMissing;
      }
      var saved := rows;
      rows := ClearDefaults(rows);
      if !currencyCode.Str? {
        // `toUpperCase` throws: ROLLBACK
        rows := saved;
        return 500, NotAString;
      }
      var code := ToUpper(currencyCode.s);
      if code !in rows {
        rows := saved;
        return 404, UnknownCode;
      }
      rows := rows[code := rows[code].(isDefault := true)];
      MakeDefaultIsOnlyDefault(saved, code);
      return 200, DefaultSet;
    }

    /** `DELETE /api/currencies/:code`. */
    method Delete(codeParam: string) returns (status: int)
      requires Valid()
      modifies this
      ensures Valid()
      ensures var code := ToUpper(codeParam);
        && (code in old(rows) ==> status == 200 && rows == old(rows) - {code})
        && (code !in old(rows) ==> status == 404 && rows == old(rows))
    {
      var code := ToUpper(codeParam);
      if code !in rows {
        return 404;
      }
      rows := rows - {code};
      return 200;
    }
  }

  // ---------------------------------------------------------------------
  // Properties

  /** Clearing leaves no default at all. */
  lemma ClearedKeepsAtMostOne(rows: Rows, cleared: bool)
    requires AtMostOneDefault(rows)
    ensures AtMostOneDefault(if cleared then ClearDefaults(rows) else rows)
    ensures DefaultCodes(ClearDefaults(rows)) == {}
  {
    assert forall k :: k in ClearDefaults(rows) ==> !ClearDefaults(rows)[k].isDefault;
  }

  /** Every POST keeps at most one default. */
  lemma PostKeepsAtMostOneDefault(rows: Rows, code: string, row: Currency, force: bool)
    requires AtMostOneDefault(rows)
    ensures AtMostOneDefault(PostRows(rows, code, row, force))
  {
  }

  /** A default POST that inserts or replaces leaves its code as the only
      default. */
  lemma PostDefaultIsOnlyDefault(rows: Rows, code: string, row: Currency, force: bool)
    requires row.isDefault && (code !in rows || force)
    ensures DefaultCodes(PostRows(rows, code, row, force)) == {code}
  {
    var r := PostRows(rows, code, row, force);
    assert code in DefaultCodes(r);
  }

  /** A default POST for an existing code without `force` clears every
      default and sets none, so the table is left without a default. */
  lemma ExistingDefaultPostLeavesNoDefault(rows: Rows, code: string, row: Currency)
    requires row.isDefault && code in rows
    ensures DefaultCodes(PostRows(rows, code, row, false)) == {}
    ensures PostRows(rows, code, row, false).Keys == rows.Keys
  {
    var r := PostRows(rows, code, row, false);
    forall k | k in r ensures !r[k].isDefault {
      assert r[k] == rows[k].(isDefault := false);
    }
  }

  /** A POST changes no other code's name or rate and adds no other code. */
  lemma PostTouchesOnlyItsCode(rows: Rows, code: string, row: Currency, force: bool, k: string)
    requires k != code
    ensures k in PostRows(rows, code, row, force) <==> k in rows
    ensures k in rows ==> PostRows(rows, code, row, force)[k] == rows[k].(isDefault := rows[k].isDefault && !row.isDefault)
  {
  }

  /** After `PUT /default` the requested code is the one and only default,
      and no name or rate changed. */
  lemma MakeDefaultIsOnlyDefault(rows: Rows, code: string)
    requires code in rows
    ensures DefaultCodes(MakeDefault(rows, code)) == {code}
    ensures AtMostOneDefault(MakeDefault(rows, code))
    ensures MakeDefault(rows, code).Keys == rows.Keys
    ensures forall k :: k in rows ==> MakeDefault(rows, code)[k].name == rows[k].name && MakeDefault(rows, code)[k].rate == rows[k].rate
  {
    var r := MakeDefault(rows, code);
    assert code in DefaultCodes(r);
  }

  /** The code POST stores is trimmed and upper-cased, so POSTing it again,
      in any ASCII case, addresses the same row. */
  lemma CodeKeyIsUpper(req: CurrencyRequest)
    requires req.code.Str?
    ensures ToUpper(CodeKey(req)) == CodeKey(req)
  {
    ToUpperIdempotent(Trim(req.code.s));
  }
}
