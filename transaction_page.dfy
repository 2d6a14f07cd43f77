/** The list logic of the transactions page: the three chained filters
    (type, category, merchant search), the income, expense and balance
    totals, and the category-name lookup.  Amounts are integers in minor
    units rather than `parseFloat` results. */
module TransactionPage {
  import opened Wrappers
  import opened JsText
  import opened Store
  import opened SeqUtil

  /** A transaction as the page receives it.  The type and the merchant are
      cells that an import may leave NULL. */
  datatype Row = Row(kind: Value, categoryId: Value, merchant: Value, amount: int)

  /** The three filter controls: the type select, the category select and
      the search box. */
  datatype Filters = Filters(kind: string, category: string, query: string)

  /** `parseInt(a) === parseInt(b)`: NaN equals nothing, not even NaN. */
  predicate SameInt(a: Option<int>, b: Option<int>) {
    a.Some? && b.Some? && a.value == b.value
  }

  /** The type callback: `t.type.toLowerCase()` throws (`None`) on a cell
      that is not a string, but only once the type select is not "all". */
  function KindTest(f: Filters, t: Row): Option<bool> {
    if f.kind == "all" then Some(true)
    else match t.kind
      case Str(k) => Some(ToLower(k) == f.kind)
      case _ => None
  }

  /** The search callback: `t.merchant.toLowerCase()` throws on a cell that
      is not a string, whatever the query. */
  function MerchantTest(f: Filters, t: Row): Option<bool> {
    match t.merchant
    case Str(m) => Some(Contains(ToLower(m), ToLower(f.query)))
    case _ => None
  }

  predicate KeepsKind(f: Filters, t: Row) {
    f.kind == "all" || (t.kind.Str? && ToLower(t.kind.s) == f.kind)
  }

  /** Both ids go through the radix-less `parseInt`, which never throws. */
  predicate KeepsCategory(f: Filters, t: Row) {
    f.category == "all" || SameInt(ParseIntAuto(TextOf(t.categoryId)), ParseIntAuto(f.category))
  }

  predicate KeepsMerchant(f: Filters, t: Row) {
    t.merchant.Str? && Contains(ToLower(t.merchant.s), ToLower(f.query))
  }

  /** The condition a row must meet to be listed. */
  predicate Listed(f: Filters, t: Row) {
    KeepsKind(f, t) && KeepsCategory(f, t) && KeepsMerchant(f, t)
  }

  /** When rendering the list throws: a type filter meets a type that is not
      a string, or a row that passes the first two filters has a merchant
      that is not a string. */
  predicate ListThrows(ts: seq<Row>, f: Filters) {
    || (f.kind != "all" && exists t :: t in ts && !t.kind.Str?)
    || (exists t :: t in ts && KeepsKind(f, t) && KeepsCategory(f, t) && !t.merchant.Str?)
  }

  /** `filteredTransactions`: three `.filter` calls in a row; `None` when one
      of the callbacks throws a TypeError and the page fails to render. */
  function FilteredTransactions(ts: seq<Row>, f: Filters): Option<seq<Row>> {
    match TryFilter(ts, t => KindTest(f, t))
    case None => None
    case Some(byKind) => TryFilter(Filter(byKind, t => KeepsCategory(f, t)), t => MerchantTest(f, t))
  }

  /** The chain throws exactly under `ListThrows`; otherwise it lists exactly
      the rows meeting all three conditions, in their original order: it is
      one filter by the conjunction. */
  lemma FilteredIsOneFilter(ts: seq<Row>, f: Filters)
    ensures FilteredTransactions(ts, f).None? <==> ListThrows(ts, f)
    ensures FilteredTransactions(ts, f).Some? ==> FilteredTransactions(ts, f).value == Filter(ts, t => Listed(f, t))
    ensures FilteredTransactions(ts, f).Some? ==>
      forall t :: t in FilteredTransactions(ts, f).value <==> t in ts && Listed(f, t)
  {
    var kind := (t: Row) => KeepsKind(f, t);
    var both := (t: Row) => KeepsKind(f, t) && KeepsCategory(f, t);
    if TryFilter(ts, t => KindTest(f, t)).Some? {
      KindStage(ts, f);
      FilterFusion(ts, kind, t => KeepsCategory(f, t), both);
      MerchantStage(Filter(ts, both), f);
      if forall t :: t in Filter(ts, both) ==> t.merchant.Str? {
        FilterFusion(ts, both, t => KeepsMerchant(f, t), t => Listed(f, t));
      }
    } else {
      var i :| 0 <= i < |ts| && KindTest(f, ts[i]).None?;
      assert ts[i] in ts;
    }
  }

  /** When the type callback throws on no row, it is the filter by `KeepsKind`. */
  lemma KindStage(ts: seq<Row>, f: Filters)
    requires TryFilter(ts, t => KindTest(f, t)).Some?
    ensures f.kind != "all" ==> forall t :: t in ts ==> t.kind.Str?
    ensures TryFilter(ts, t => KindTest(f, t)) == Some(Filter(ts, t => KeepsKind(f, t)))
  {
    forall t | t in ts ensures KindTest(f, t) == Some(KeepsKind(f, t)) {
      var i :| 0 <= i < |ts| && ts[i] == t;
      assert KindTest(f, ts[i]).Some?;
    }
    TryFilterIsFilter(ts, t => KindTest(f, t), t => KeepsKind(f, t));
  }

  /** The search callback throws exactly when a remaining merchant is not a
      string, and otherwise is the filter by `KeepsMerchant`. */
  lemma MerchantStage(rs: seq<Row>, f: Filters)
    ensures TryFilter(rs, t => MerchantTest(f, t)).None? <==> exists t :: t in rs && !t.merchant.Str?
    ensures (forall t :: t in rs ==> t.merchant.Str?) ==>
      TryFilter(rs, t => MerchantTest(f, t)) == Some(Filter(rs, t => KeepsMerchant(f, t)))
  {
    if forall t :: t in rs ==> t.merchant.Str? {
      TryFilterIsFilter(rs, t => MerchantTest(f, t), t => KeepsMerchant(f, t));
    } else {
      var t :| t in rs && !t.merchant.Str?;
      var i :| 0 <= i < |rs| && rs[i] == t;
      assert MerchantTest(f, rs[i]).None?;
    }
  }

  /** With every control at its initial value the whole list shows, unless
      some merchant is not a string, when the page throws. */
  lemma NoFilterListsAll(ts: seq<Row>)
    ensures FilteredTransactions(ts, Filters("all", "all", "")) ==
      if exists t :: t in ts && !t.merchant.Str? then None else Some(ts)
  {
    var f := Filters("all", "all", "");
    FilteredIsOneFilter(ts, f);
    if forall t :: t in ts ==> t.merchant.Str? {
      forall t | t in ts ensures Listed(f, t) {
        ContainsEmpty(ToLower(t.merchant.s));
      }
      FilterKeepsAll(ts, t => Listed(f, t));
    } else {
      var t :| t in ts && !t.merchant.Str?;
      assert KeepsKind(f, t) && KeepsCategory(f, t);
    }
  }

  /** A type filter is compared with the lower-cased type, so an upper-case
      choice matches nothing; a type that is not a string makes it throw. */
  lemma UpperCaseKindMatchesNothing(ts: seq<Row>, f: Filters)
    requires f.kind == "Income"
    ensures FilteredTransactions(ts, f) ==
      if exists t :: t in ts && !t.kind.Str? then None else Some([])
  {
    FilteredIsOneFilter(ts, f);
    assert forall t :: !KeepsKind(f, t);
    if FilteredTransactions(ts, f).Some? {
      var r := FilteredTransactions(ts, f).value;
      if r != [] {
        assert r[0] in r;
      }
    }
  }

  /** A row whose category does not parse is hidden by every category
      filter other than "all". */
  lemma UnparsedCategoryHidden(f: Filters, t: Row)
    requires f.category != "all" && ParseIntAuto(TextOf(t.categoryId)).None?
    ensures !Listed(f, t)
  {
  }

  /** A hexadecimal category id reads as its value: the text "0x5" is
      listed under category filter "5". */
  lemma HexCategoryListed(t: Row)
    requires t.categoryId == Str("0x5")
    ensures KeepsCategory(Filters("all", "5", ""), t)
  {
    HexParseIntAuto();
    ParseIntAutoOfString(5);
    assert IntToString(5) == "5";
  }

  // ---------------------------------------------------------------------
  // Totals

  /** Total income: amounts of rows typed exactly "income". */
  function Income(ts: seq<Row>): (r: int)
    ensures (forall i | 0 <= i < |ts| :: ts[i].kind != Str("income")) ==> r == 0
    ensures (forall i | 0 <= i < |ts| :: ts[i].amount >= 0) ==> r >= 0
  {
    if ts == [] then 0 else (if ts[0].kind == Str("income") then ts[0].amount else 0) + Income(ts[1..])
  }

  /** Total expenses: amounts of rows typed exactly "expense". */
  function Expense(ts: seq<Row>): (r: int)
    ensures (forall i | 0 <= i < |ts| :: ts[i].kind != Str("expense")) ==> r == 0
    ensures (forall i | 0 <= i < |ts| :: ts[i].amount >= 0) ==> r >= 0
  {
    if ts == [] then 0 else (if ts[0].kind == Str("expense") then ts[0].amount else 0) + Expense(ts[1..])
  }

  /** Everything that is not income. */
  function NotIncome(ts: seq<Row>): int {
    if ts == [] then 0 else (if ts[0].kind == Str("income") then 0 else ts[0].amount) + NotIncome(ts[1..])
  }

  /** Total balance: income counted up, every other row counted down. */
  function Balance(ts: seq<Row>): (r: int)
    ensures (forall i | 0 <= i < |ts| :: ts[i].kind == Str("income")) ==> r == Income(ts)
  {
    if ts == [] then 0 else Balance(ts[1..]) + (if ts[0].kind == Str("income") then ts[0].amount else -ts[0].amount)
  }

  /** The balance is income minus everything that is not income. */
  lemma {:induction false} BalanceIsIncomeMinusRest(ts: seq<Row>)
    ensures Balance(ts) == Income(ts) - NotIncome(ts)
  {
    if ts != [] {
      BalanceIsIncomeMinusRest(ts[1..]);
    }
  }

  /** When every row is income or expense, what is not income is expense. */
  lemma {:induction false} RestIsExpense(ts: seq<Row>)
    requires forall t :: t in ts ==> t.kind == Str("income") || t.kind == Str("expense")
    ensures NotIncome(ts) == Expense(ts)
  {
    if ts != [] {
      assert ts[0] in ts;
      assert forall t :: t in ts[1..] ==> t in ts;
      RestIsExpense(ts[1..]);
    }
  }

  /** So the balance card shows income minus expenses exactly when every row
      is income or expense. */
  lemma BalanceIsIncomeMinusExpense(ts: seq<Row>)
    requires forall t :: t in ts ==> t.kind == Str("income") || t.kind == Str("expense")
    ensures Balance(ts) == Income(ts) - Expense(ts)
  {
    BalanceIsIncomeMinusRest(ts);
    RestIsExpense(ts);
  }

  /** A row of another type, such as "Expense" with a capital letter, lowers
      the balance without appearing in the expense total. */
  lemma OtherTypeSkewsBalance(amount: int)
    ensures var ts := [Row(Str("Expense"), Null, Str(""), amount)];
      Balance(ts) == -amount && Income(ts) == 0 && Expense(ts) == 0
  {
  }

  // ---------------------------------------------------------------------
  // Category names

  datatype Category = Category(id: int, name: string)

  const Categories: seq<Category> := [
    Category(1, "Food & Dining"), Category(2, "Shopping"), Category(3, "Transportation"),
    Category(4, "Entertainment"), Category(5, "Bills & Utilities"), Category(6, "Healthcare"),
    Category(7, "Salary"), Category(8, "Investment")]

  const UnknownName: string := "Unknown"

  /** `categories.find(...)`: the first category whose id equals `id`. */
  function FindCategory(cats: seq<Category>, id: Option<int>): (r: Option<nat>)
    ensures r.Some? ==>
      && r.value < |cats| && SameInt(Some(cats[r.value].id), id)
      && (forall j :: 0 <= j < r.value ==> !SameInt(Some(cats[j].id), id))
    ensures r.None? ==> forall j :: 0 <= j < |cats| ==> !SameInt(Some(cats[j].id), id)
  {
    if cats == [] then None
    else if SameInt(Some(cats[0].id), id) then Some(0)
    else match FindCategory(cats[1..], id)
      case None => None
      case Some(k) => Some(k + 1)
  }

  /** `getCategoryName(id)`: the id is parsed, then looked up. */
  function CategoryName(id: Value): (r: string)
    ensures r == UnknownName || exists i :: 0 <= i < |Categories| && Categories[i].name == r
  {
    ParsedCategoryName(ParseIntAuto(TextOf(id)))
  }

  function ParsedCategoryName(parsed: Option<int>): (r: string)
    ensures r == UnknownName || exists i :: 0 <= i < |Categories| && Categories[i].name == r
  {
    match FindCategory(Categories, parsed)
    case Some(i) => Categories[i].name
    case None => UnknownName
  }

  /** Category `k` sits at position `k - 1`. */
  lemma CategoryIdsArePositions()
    ensures |Categories| == 8
    ensures forall j :: 0 <= j < |Categories| ==> Categories[j].id == j + 1
  {
  }

  /** In a table where category `k` sits at position `k - 1`, the lookup of
      `k` finds that position, and the lookup of any other id finds nothing. */
  lemma FindByPosition(cats: seq<Category>, k: int)
    requires forall j :: 0 <= j < |cats| ==> cats[j].id == j + 1
    ensures FindCategory(cats, Some(k)) == if 1 <= k <= |cats| then Some(k - 1) else None
  {
    var r := FindCategory(cats, Some(k));
    if 1 <= k <= |cats| {
      assert SameInt(Some(cats[k - 1].id), Some(k));
    }
  }

  /** The lookup by a parsed id: ids 1 to 8 name their category, any other
      is "Unknown". */
  lemma CategoryOfParsedId(id: Value, k: int)
    requires ParseIntAuto(TextOf(id)) == Some(k)
    ensures 1 <= k <= 8 ==> CategoryName(id) == Categories[k - 1].name
    ensures !(1 <= k <= 8) ==> CategoryName(id) == UnknownName
  {
    ParsedNameOfId(k);
  }

  /** Ids 1 to 8 name their category, any other is "Unknown". */
  lemma ParsedNameOfId(k: int)
    ensures 1 <= k <= 8 ==> ParsedCategoryName(Some(k)) == Categories[k - 1].name
    ensures !(1 <= k <= 8) ==> ParsedCategoryName(Some(k)) == UnknownName
  {
    CategoryIdsArePositions();
    FindByPosition(Categories, k);
  }

  /** A known id, as a number or as its text, names its category; any other
      id is "Unknown". */
  lemma CategoryNameOfId(k: int)
    ensures 1 <= k <= 8 ==> CategoryName(Num(k)) == Categories[k - 1].name
    ensures 1 <= k <= 8 ==> CategoryName(Str(IntToString(k))) == Categories[k - 1].name
    ensures !(1 <= k <= 8) ==> CategoryName(Num(k)) == UnknownName
  {
    ParseIntAutoOfString(k);
    CategoryOfParsedId(Num(k), k);
    CategoryOfParsedId(Str(IntToString(k)), k);
  }

  /** The radix-less `parseInt` reads a hexadecimal id: "0x5" names the
      fifth category. */
  lemma HexCategoryName()
    ensures CategoryName(Str("0x5")) == "Bills & Utilities"
  {
    HexParseIntAuto();
    CategoryOfParsedId(Str("0x5"), 5);
  }

  /** An id that does not parse is "Unknown". */
  lemma CategoryNameOfNaN(id: Value)
    requires ParseIntAuto(TextOf(id)).None?
    ensures CategoryName(id) == UnknownName
  {
  }
}
