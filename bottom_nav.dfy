/** The learner's bottom navigation (`src/components/BottomNav.tsx`): five
    fixed links, each highlighted when the current path belongs to it. */
module BottomNav {
  import opened Text

  datatype NavItem = NavItem(caption: string, path: string)

  const HOME := "/app"

  const NAV_ITEMS: seq<NavItem> := [
    NavItem("Home", HOME),
    NavItem("Learn", "/app/academy"),
    NavItem("Rank", "/app/leaderboard"),
    NavItem("Rewards", "/app/rewards"),
    NavItem("Profile", "/app/profile")
  ]

  /** `isActive`: Home only on its own path; any other item on its path and on
      every path that starts with it. */
  predicate IsActive(pathname: string, path: string): (active: bool)
    ensures active ==> StartsWith(pathname, path)
    ensures path == HOME ==> (active <==> pathname == HOME)
  {
    pathname == path || (path != HOME && StartsWith(pathname, path))
  }

  /** Home is highlighted on "/app" only. */
  lemma HomeOnlyOnItsOwnPath(pathname: string)
    ensures IsActive(pathname, HOME) <==> pathname == HOME
  {
  }

  /** The prefix test does not stop at a path separator. */
  lemma PrefixWithoutSeparator()
    ensures IsActive("/app/rewardsX", "/app/rewards")
    ensures IsActive("/app/rewards/history", "/app/rewards")
    ensures !IsActive("/app/rewards", "/app")
  {
    assert "/app/rewardsX"[..|"/app/rewards"|] == "/app/rewards";
    assert "/app/rewards/history"[..|"/app/rewards"|] == "/app/rewards";
  }

  /** No path of the four items after Home is a prefix of another. */
  lemma NoItemPathIsPrefixOfAnother(i: nat, j: nat)
    requires 1 <= i < |NAV_ITEMS| && 1 <= j < |NAV_ITEMS| && i != j
    ensures !StartsWith(NAV_ITEMS[j].path, NAV_ITEMS[i].path)
  {
    var a := NAV_ITEMS[i].path;
    var b := NAV_ITEMS[j].path;
    if |a| <= |b| {
      assert a[5] != b[5] || a[6] != b[6];
      assert b[..|a|][5] == b[5] && b[..|a|][6] == b[6];
    }
  }

  /** Whatever the path, at most one item is highlighted. */
  lemma AtMostOneActive(pathname: string, i: nat, j: nat)
    requires i < |NAV_ITEMS| && j < |NAV_ITEMS| && i != j
    ensures !(IsActive(pathname, NAV_ITEMS[i].path) && IsActive(pathname, NAV_ITEMS[j].path))
  {
    if IsActive(pathname, NAV_ITEMS[i].path) && IsActive(pathname, NAV_ITEMS[j].path) {
      var a := NAV_ITEMS[i].path;
      var b := NAV_ITEMS[j].path;
      if i == 0 || j == 0 {
      } else if |a| <= |b| {
        PrefixesAreNested(pathname, a, b);
        NoItemPathIsPrefixOfAnother(i, j);
      } else {
        PrefixesAreNested(pathname, b, a);
        NoItemPathIsPrefixOfAnother(j, i);
      }
    }
  }
}
