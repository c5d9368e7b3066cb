/**
 * The department of a signed-in user decides where their dashboard is and
 * how the header labels them. Only "sales" and "trade" are singled out;
 * every other value, "admin" included, takes the administrator branch.
 */
module Department {
  import opened Js

  /** The dashboard of a department, as both the middleware redirect and
      the header's dashboard link compute it. */
  function DashboardPath(department: string): (r: string)
    ensures StartsWith(r, "/dashboard/")
    ensures r == "/dashboard/sales" <==> department == "sales"
    ensures r == "/dashboard/trade" <==> department == "trade"
    ensures r == "/dashboard/admin" <==> department != "sales" && department != "trade"
  {
    if department == "sales" then "/dashboard/sales"
    else if department == "trade" then "/dashboard/trade"
    else "/dashboard/admin"
  }

  /** The department label under the user's name in the header. */
  function Label(department: string): (r: string)
    ensures r == "영업부" <==> department == "sales"
    ensures r == "무역부" <==> department == "trade"
    ensures r == "관리자" <==> department != "sales" && department != "trade"
  {
    if department == "sales" then "영업부"
    else if department == "trade" then "무역부"
    else "관리자"
  }

  /** The label and the dashboard always name the same branch. */
  lemma {:induction false} LabelMatchesDashboard(department: string)
    ensures Label(department) == "영업부" <==> DashboardPath(department) == "/dashboard/sales"
    ensures Label(department) == "무역부" <==> DashboardPath(department) == "/dashboard/trade"
    ensures Label(department) == "관리자" <==> DashboardPath(department) == "/dashboard/admin"
  {
  }
}
