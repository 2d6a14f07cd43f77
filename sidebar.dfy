/** The sidebar's menu: the groups `menuStructure(role)` lists (a `label` is `name` here), with the
    admin entry only for administrators, and `filteredMenus`, which narrows
    each group's items by the search box.  Icons are left out. */
module Sidebar {
  import opened JsText
  import opened SeqUtil

  datatype MenuItem = MenuItem(id: string, name: string, route: string)

  datatype MenuGroup = MenuGroup(id: string, name: string, items: seq<MenuItem>)

  const AdminPanel: MenuItem := MenuItem("manage", "Admin Panel", "/admin")

  /** The items of the "Reports & Admin" group. */
  function ReportItems(role: string): seq<MenuItem> {
    [MenuItem("reports", "Reports", "/reports")] + (if role == "admin" then [AdminPanel] else [])
  }

  /** `menuStructure(role)`. */
  function MenuStructure(role: string): seq<MenuGroup> {
    [ MenuGroup("main", "Main", [
        MenuItem("dashboard", "Dashboard", "/dashboard"),
        MenuItem("analytics", "Analytics", "/analytics"),
        MenuItem("trends", "Trends", "/trends")]),
      MenuGroup("money", "Money", [
        MenuItem("transactions", "Transactions", "/transactions"),
        MenuItem("budgets", "Budgets", "/budgets"),
        MenuItem("subscriptions", "Subscriptions", "/subscriptions"),
        MenuItem("currencies", "Currencies", "/currencies")]),
      MenuGroup("reports", "Reports & Admin", ReportItems(role)),
      MenuGroup("system", "System", [
        MenuItem("notifications", "Notifications", "/notifications"),
        MenuItem("settings", "Settings", "/settings"),
        MenuItem("help", "Help", "/help")]) ]
  }

  /** Every item of the menu, group by group. */
  function AllItems(menus: seq<MenuGroup>): seq<MenuItem> {
    if menus == [] then [] else menus[0].items + AllItems(menus[1..])
  }

  /** The search condition of one item: a blank query shows everything,
      otherwise the lower-cased label must include the lower-cased query,
      which is not trimmed. */
  predicate Shown(query: string, it: MenuItem) {
    Trim(query) == [] || Contains(ToLower(it.name), ToLower(query))
  }

  /** `filteredMenus`: every group kept, its items filtered. */
  function FilteredMenus(menus: seq<MenuGroup>, query: string): (r: seq<MenuGroup>)
    ensures |r| == |menus|
    ensures forall i :: 0 <= i < |r| ==> r[i].id == menus[i].id && r[i].name == menus[i].name
    ensures forall i :: 0 <= i < |r| ==>
      forall it :: it in r[i].items <==> it in menus[i].items && Shown(query, it)
  {
    seq(|menus|, i requires 0 <= i < |menus| => menus[i].(items := Filter(menus[i].items, it => Shown(query, it))))
  }

  // ---------------------------------------------------------------------
  // Properties

  /** The admin entry is in the menu exactly for the role "admin", and there
      it is the only item that leads to `/admin`. */
  lemma AdminPanelIffAdmin(role: string)
    ensures AdminPanel in AllItems(MenuStructure(role)) <==> role == "admin"
    ensures forall it :: it in AllItems(MenuStructure(role)) && it.route == "/admin" ==> it == AdminPanel
  {
    var m := MenuStructure(role);
    forall it ensures it in AllItems(m) <==> exists i :: 0 <= i < |m| && it in m[i].items {
      InAllItems(m, it);
    }
    OtherGroupsLackAdmin(role);
    ReportItemsAdmin(role);
  }

  /** No item outside "Reports & Admin" leads to `/admin`. */
  lemma OtherGroupsLackAdmin(role: string)
    ensures |MenuStructure(role)| == 4 && MenuStructure(role)[2].items == ReportItems(role)
    ensures forall i, it :: 0 <= i < 4 && i != 2 && it in MenuStructure(role)[i].items ==> it.route != "/admin"
  {
    var m := MenuStructure(role);
    assert forall it :: it in m[0].items ==> it.route != "/admin";
    assert forall it :: it in m[1].items ==> it.route != "/admin";
    assert forall it :: it in m[3].items ==> it.route != "/admin";
  }

  /** The report group holds the admin entry exactly for "admin", and it is
      that group's only item leading to `/admin`. */
  lemma ReportItemsAdmin(role: string)
    ensures AdminPanel in ReportItems(role) <==> role == "admin"
    ensures forall it :: it in ReportItems(role) && it.route == "/admin" ==> it == AdminPanel
  {
    if role == "admin" {
      assert ReportItems(role)[1] == AdminPanel;
    }
  }

  lemma {:induction false} InAllItems(menus: seq<MenuGroup>, it: MenuItem)
    ensures it in AllItems(menus) <==> exists i :: 0 <= i < |menus| && it in menus[i].items
  {
    if menus != [] {
      InAllItems(menus[1..], it);
      if it in menus[0].items {
        assert it in AllItems(menus);
      }
      if exists i :: 1 <= i < |menus| && it in menus[i].items {
        var i :| 1 <= i < |menus| && it in menus[i].items;
        assert it in menus[1..][i - 1].items;
      }
    }
  }

  /** A query that is blank after trimming leaves the menu as it is. */
  lemma BlankQueryKeepsMenu(menus: seq<MenuGroup>, query: string)
    requires Trim(query) == []
    ensures FilteredMenus(menus, query) == menus
  {
    var r := FilteredMenus(menus, query);
    forall i | 0 <= i < |menus| ensures r[i] == menus[i] {
      FilterKeepsAll(menus[i].items, it => Shown(query, it));
    }
  }

  /** A query longer than a label cannot match it: a search with a leading
      space, " budgets", hides the Budgets entry. */
  lemma LeadingSpaceHidesBudgets()
    ensures !Shown(" budgets", MenuItem("budgets", "Budgets", "/budgets"))
  {
    var q := " budgets";
    assert !IsWhitespace(q[1]);
    assert Trim(q) != [] by {
      TrimEmptyIffBlank(q);
    }
    assert |ToLower(q)| > |ToLower("Budgets")|;
  }
}
