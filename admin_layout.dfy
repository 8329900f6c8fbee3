/** The admin shell (`src/pages/admin/AdminLayout.tsx`): who sees the admin
    pages, and which of the six links is highlighted. */
module AdminLayout {
  import opened Text

  datatype NavItem = NavItem(caption: string, path: string)

  const DASHBOARD := "/admin"

  const ADMIN_NAV: seq<NavItem> := [
    NavItem("Dashboard", DASHBOARD),
    NavItem("Courses", "/admin/courses"),
    NavItem("Rewards", "/admin/rewards"),
    NavItem("Articles", "/admin/articles"),
    NavItem("Users", "/admin/users"),
    NavItem("Notifications", "/admin/notifications")
  ]

  /** A link is highlighted on its own path and on every path below it. */
  predicate IsActive(pathname: string, path: string): (active: bool)
    ensures active ==> StartsWith(pathname, path)
    ensures active && pathname != path ==> |path| < |pathname| && pathname[|path|] == '/'
  {
    pathname == path || StartsWith(pathname, path + "/")
  }

  /** The Dashboard link is highlighted on every admin page, together with the
      page's own link. */
  lemma DashboardActiveBelowAdmin(pathname: string)
    requires StartsWith(pathname, DASHBOARD + "/")
    ensures IsActive(pathname, DASHBOARD)
  {
  }

  lemma TwoLinksAtOnce()
    ensures IsActive("/admin/courses", DASHBOARD) && IsActive("/admin/courses", "/admin/courses")
  {
    assert "/admin/courses"[..|DASHBOARD + "/"|] == DASHBOARD + "/";
  }

  /** The separator is part of the test: a page below Courses highlights it, a
      path that merely starts with its letters does not. */
  lemma SeparatorMatters()
    ensures IsActive("/admin/courses/x/lessons", "/admin/courses")
    ensures !IsActive("/admin/coursesX", "/admin/courses")
  {
    assert "/admin/courses/x/lessons"[..|"/admin/courses/"|] == "/admin/courses/";
    assert "/admin/coursesX"[14] != "/admin/courses/"[14];
  }

  /** No two links after the Dashboard share a page: their paths differ in the
      first letter after "/admin/". */
  lemma AtMostOneBesideDashboard(pathname: string, i: nat, j: nat)
    requires 1 <= i < |ADMIN_NAV| && 1 <= j < |ADMIN_NAV| && i != j
    ensures !(IsActive(pathname, ADMIN_NAV[i].path) && IsActive(pathname, ADMIN_NAV[j].path))
  {
    var a := ADMIN_NAV[i].path;
    var b := ADMIN_NAV[j].path;
    assert a[7] != b[7];
    ActiveFixesCharacter(pathname, a, 7);
    ActiveFixesCharacter(pathname, b, 7);
  }

  /** Any path on which a link is highlighted agrees with the link's path at
      every position the link's path has. */
  lemma ActiveFixesCharacter(pathname: string, path: string, k: nat)
    requires k < |path|
    ensures IsActive(pathname, path) ==> k < |pathname| && pathname[k] == path[k]
  {
    if IsActive(pathname, path) && pathname != path {
      assert pathname[..|path + "/"|][k] == (path + "/")[k];
    }
  }

  /** `slice(0, end)` of an array. */
  function Slice<T>(s: seq<T>, end: nat): (r: seq<T>)
    ensures |r| == if end < |s| then end else |s|
    ensures forall i :: 0 <= i < |r| ==> r[i] == s[i]
  {
    if end < |s| then s[..end] else s
  }

  /** The mobile bar takes the first six links, which are all of them. */
  lemma MobileBarShowsAll()
    ensures Slice(ADMIN_NAV, 6) == ADMIN_NAV
  {
  }

  /** What the layout renders. */
  datatype View = LoadingText | Nothing | Content

  function Render(loading: bool, isAdmin: bool): (v: View)
    ensures v == Content <==> !loading && isAdmin
    ensures v == LoadingText <==> loading
  {
    if loading then LoadingText else if !isAdmin then Nothing else Content
  }

  /** The redirect effect sends anyone who is not an administrator (signed out included) to "/app". */
  predicate Redirects(loading: bool, isAdmin: bool) {
    !loading && !isAdmin
  }

  /** The admin pages are shown exactly when there is neither the loading text
      nor a redirect. */
  lemma ContentIffNoRedirect(loading: bool, isAdmin: bool)
    ensures Render(loading, isAdmin) == Content <==> !loading && !Redirects(loading, isAdmin)
    ensures Redirects(loading, isAdmin) ==> Render(loading, isAdmin) == Nothing
  {
  }
}
