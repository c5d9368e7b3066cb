/**
 * The header's navigation: a fixed table of four links whose visibility
 * depends on the signed-in user's department, the "new request" shortcut
 * for sales, and the rule that highlights the link of the current page.
 * The header only renders these when a user and their row are loaded, so
 * the department here is that row's value.
 */
module Navigation {
  import opened Js
  import opened Optional
  import opened Department
  import opened Middleware

  datatype NavItem = NavItem(name: string, href: string, show: bool)

  /** The `navigation` table, in its order. */
  function Items(department: string): seq<NavItem> {
    [ NavItem("대시보드", DashboardPath(department), true),
      NavItem("소싱 의뢰", "/sourcing", department == "sales" || department == "admin"),
      NavItem("통합 검색", "/search", true),
      NavItem("TASK", "/tasks", department == "trade" || department == "admin") ]
  }

  predicate Shown(item: NavItem) {
    item.show
  }

  /** `navigation.filter(item => item.show)` */
  function Visible(department: string): seq<NavItem> {
    Filter(Items(department), Shown)
  }

  function Hrefs(items: seq<NavItem>): (r: seq<string>)
    ensures |r| == |items|
    ensures forall i :: 0 <= i < |items| ==> r[i] == items[i].href
  {
    seq(|items|, i requires 0 <= i < |items| => items[i].href)
  }

  /** `isActive(href)` */
  predicate IsActive(pathname: string, href: string) {
    pathname == href || StartsWith(pathname, href + "/")
  }

  /** The "새 의뢰" link to the new-request form is offered to sales only. */
  predicate OffersNewRequest(department: string) {
    department == "sales"
  }

  lemma {:induction false} FilterFour(a: NavItem, b: NavItem, c: NavItem, d: NavItem)
    ensures Filter([a, b, c, d], Shown)
      == (if a.show then [a] else []) + (if b.show then [b] else []) + (if c.show then [c] else []) + (if d.show then [d] else [])
  {
    assert [a][..0] == [];
    assert Filter([a], Shown) == (if a.show then [a] else []);
    assert [a, b][..1] == [a];
    assert Filter([a, b], Shown) == Filter([a], Shown) + (if b.show then [b] else []);
    assert [a, b, c][..2] == [a, b];
    assert Filter([a, b, c], Shown) == Filter([a, b], Shown) + (if c.show then [c] else []);
    assert [a, b, c, d][..3] == [a, b, c];
  }

  /** The links each department sees, in order: the dashboard and search
      always, the sourcing list for sales and admin, the task list for
      trade and admin. */
  lemma {:induction false} VisibleLinks(department: string)
    ensures Hrefs(Visible(department)) ==
      if department == "sales" then ["/dashboard/sales", "/sourcing", "/search"]
      else if department == "trade" then ["/dashboard/trade", "/search", "/tasks"]
      else if department == "admin" then ["/dashboard/admin", "/sourcing", "/search", "/tasks"]
      else ["/dashboard/admin", "/search"]
  {
    var it := Items(department);
    FilterFour(it[0], it[1], it[2], it[3]);
    assert it == [it[0], it[1], it[2], it[3]];
  }

  /** On an active link the path agrees with the link's href letter by
      letter. */
  lemma {:induction false} ActiveAgrees(pathname: string, href: string, k: nat)
    requires IsActive(pathname, href) && k < |href|
    ensures k < |pathname| && pathname[k] == href[k]
  {
    if pathname != href {
      assert (href + "/")[k] == href[k];
    }
  }

  /** The "새 의뢰" shortcut sits beside the sourcing list: it is offered
      exactly to the department that sees the sourcing list but not the
      task list. */
  lemma {:induction false} NewRequestBesideSourcing(department: string)
    ensures OffersNewRequest(department) <==>
      "/sourcing" in Hrefs(Visible(department)) && "/tasks" !in Hrefs(Visible(department))
  {
    VisibleLinks(department);
  }

  /** At most one visible link is highlighted, whatever the path. */
  lemma {:induction false} AtMostOneActive(pathname: string, department: string, x: NavItem, y: NavItem)
    requires x in Visible(department) && y in Visible(department)
    requires IsActive(pathname, x.href) && IsActive(pathname, y.href)
    ensures x == y
  {
    var it := Items(department);
    FilterMembers(it, Shown, x);
    FilterMembers(it, Shown, y);
    // The four hrefs differ at index 1, except "/sourcing" and "/search",
    // which differ at index 2.
    ActiveAgrees(pathname, x.href, 1);
    ActiveAgrees(pathname, y.href, 1);
    if x.href[1] == 's' && y.href[1] == 's' {
      ActiveAgrees(pathname, x.href, 2);
      ActiveAgrees(pathname, y.href, 2);
    }
  }

  /** The page the middleware sends a signed-in user to from the login
      page is the target of their dashboard link, which is shown and is
      the only shown link highlighted there. */
  lemma {:induction false} LandingHighlightsDashboard(department: string)
    ensures Decide("/login", true, Some(department)) == RedirectToDashboard(Items(department)[0].href)
    ensures Items(department)[0] in Visible(department)
    ensures forall y :: y in Visible(department) && IsActive(Items(department)[0].href, y.href) ==> y == Items(department)[0]
  {
    AuthPathIff("/login");
    ProtectedNeverAuth("/login");
    var d := Items(department)[0];
    FilterMembers(Items(department), Shown, d);
    forall y | y in Visible(department) && IsActive(d.href, y.href)
      ensures y == d
    {
      AtMostOneActive(d.href, department, d, y);
    }
  }
}
