/**
 * The superadmin sidebar's pure parts: the menu table, the rule that marks
 * a menu item active for the current pathname, and the avatar initials and
 * role label of the signed-in user.
 */
module Sidebar {
  import opened Wrappers
  import opened Strings
  import Middleware

  datatype MenuItem = MenuItem(id: string, caption: string, path: string)

  const MENU_ITEMS: seq<MenuItem> := [
    MenuItem("home", "Dashboard", "/"),
    MenuItem("users", "Users", "/users"),
    MenuItem("agents", "Agents", "/agents"),
    MenuItem("warehouses", "Warehouses", "/warehouses"),
    MenuItem("settings", "Settings", "/settings")
  ]

  /** The root item needs the exact pathname; every other item a raw prefix. No pathname activates nothing. */
  predicate IsActive(item: MenuItem, pathname: Option<string>) {
    if item.path == "/" then pathname == Some("/")
    else pathname.Some? && StartsWith(pathname.value, item.path)
  }

  /** The active flag of each rendered menu item, in menu order. */
  function ActiveFlags(pathname: Option<string>): (r: seq<bool>)
    ensures |r| == |MENU_ITEMS|
    ensures forall i | 0 <= i < |r| :: r[i] == IsActive(MENU_ITEMS[i], pathname)
  {
    seq(|MENU_ITEMS|, i requires 0 <= i < |MENU_ITEMS| => IsActive(MENU_ITEMS[i], pathname))
  }

  /** The root item is active exactly on `/`. */
  lemma RootActiveExactlyOnRoot(pathname: Option<string>)
    ensures IsActive(MENU_ITEMS[0], pathname) <==> pathname == Some("/")
  {
  }

  /** A non-root item is active exactly when the pathname starts with its path. */
  lemma NonRootActiveByRawPrefix(i: nat, pathname: string)
    requires 0 < i < |MENU_ITEMS|
    ensures IsActive(MENU_ITEMS[i], Some(pathname)) <==> StartsWith(pathname, MENU_ITEMS[i].path)
  {
  }

  /** Without a pathname no item is active. */
  lemma NoPathnameNothingActive()
    ensures forall i | 0 <= i < |MENU_ITEMS| :: !IsActive(MENU_ITEMS[i], None)
  {
  }

  /** The raw prefix: `/users-archive` activates Users, though the middleware does not treat it as an admin route. */
  lemma SidebarPrefixIsLooser()
    ensures IsActive(MENU_ITEMS[1], Some("/users-archive"))
    ensures !Middleware.IsAdminRoute("/users-archive")
  {
    StartsWithConcat("/users", "-archive");
    assert "/users-archive" == "/users" + "-archive";
    Middleware.SiblingNotUnderPrefix("/users", '-', "archive");
    assert "/users-archive" == "/users" + ['-'] + "archive";
    Middleware.NotUnderTheOtherAdminPrefixes("/users-archive");
  }

  /** Whatever the middleware places under a non-root item's path also activates that item. */
  lemma UnderPrefixActivates(i: nat, pathname: string)
    requires 0 < i < |MENU_ITEMS| && Middleware.UnderPrefix(pathname, MENU_ITEMS[i].path)
    ensures IsActive(MENU_ITEMS[i], Some(pathname))
  {
    var p := MENU_ITEMS[i].path;
    if pathname != p {
      StartsWithBoth(pathname, p, p + "/");
      assert (p + "/")[..|p|] == p;
    }
  }

  /**
   * A menu in which at most one item is active for any pathname: one root
   * item at most, and no non-root path is a prefix of `/` or of another
   * item's path.
   */
  ghost predicate PrefixFree(items: seq<MenuItem>) {
    forall i, j | 0 <= i < |items| && 0 <= j < |items| && i != j ::
      (items[i].path == "/" ==> items[j].path != "/")
      && (items[i].path != "/" ==> !StartsWith("/", items[i].path))
      && (items[i].path != "/" && items[j].path != "/" ==> !StartsWith(items[i].path, items[j].path))
  }

  /** In a prefix-free menu no pathname activates two items. */
  lemma PrefixFreeAtMostOneActive(items: seq<MenuItem>, pathname: Option<string>, i: nat, j: nat)
    requires PrefixFree(items) && i < |items| && j < |items|
    requires IsActive(items[i], pathname) && IsActive(items[j], pathname)
    ensures i == j
  {
    if i != j {
      var s := pathname.value;
      var p, q := items[i].path, items[j].path;
      if p != "/" && q != "/" {
        if |p| <= |q| {
          StartsWithBoth(s, p, q);
        } else {
          StartsWithBoth(s, q, p);
        }
      }
    }
  }

  /** The sidebar's menu is prefix-free. */
  lemma MenuIsPrefixFree()
    ensures PrefixFree(MENU_ITEMS)
  {
    forall i, j | 0 <= i < |MENU_ITEMS| && 0 <= j < |MENU_ITEMS| && i != j
      ensures MENU_ITEMS[i].path == "/" ==> MENU_ITEMS[j].path != "/"
      ensures MENU_ITEMS[i].path != "/" ==> !StartsWith("/", MENU_ITEMS[i].path)
      ensures MENU_ITEMS[i].path != "/" && MENU_ITEMS[j].path != "/" ==> !StartsWith(MENU_ITEMS[i].path, MENU_ITEMS[j].path)
    {
      var p, q := MENU_ITEMS[i].path, MENU_ITEMS[j].path;
      assert (i == 0 <==> p == "/") && (j == 0 <==> q == "/");
      assert i != 0 ==> |p| >= 2;
      if i != 0 && j != 0 {
        NonRootPathsDiffer(i, j);
        NotStartsWithAt(p, q, 1);
      }
    }
  }

  /** The paths of two distinct non-root items differ at their second character. */
  lemma NonRootPathsDiffer(i: nat, j: nat)
    requires 0 < i < |MENU_ITEMS| && 0 < j < |MENU_ITEMS| && i != j
    ensures |MENU_ITEMS[i].path| >= 2 && |MENU_ITEMS[j].path| >= 2
    ensures MENU_ITEMS[i].path[1] != MENU_ITEMS[j].path[1]
  {
  }

  /** No pathname activates two items of the sidebar's menu. */
  lemma AtMostOneActive(pathname: Option<string>, i: nat, j: nat)
    requires i < |MENU_ITEMS| && j < |MENU_ITEMS|
    requires IsActive(MENU_ITEMS[i], pathname) && IsActive(MENU_ITEMS[j], pathname)
    ensures i == j
  {
    MenuIsPrefixFree();
    PrefixFreeAtMostOneActive(MENU_ITEMS, pathname, i, j);
  }

  // ---------------------------------------------------------------------
  // Avatar and role label

  /** `name?.[0]`: the first character, or nothing for a missing or empty name. */
  function FirstChar(name: Option<string>): (r: string)
    ensures |r| <= 1
    ensures r == [] <==> name.None? || name.value == ""
    ensures r != [] ==> r[0] == name.value[0]
  {
    match name
    case None => ""
    case Some(s) => if s == "" then "" else [s[0]]
  }

  /** The avatar text: the first name's first character followed by the last name's. */
  function Initials(firstName: Option<string>, lastName: Option<string>): (r: string)
    ensures |r| == |FirstChar(firstName)| + |FirstChar(lastName)| <= 2
    ensures firstName.Some? && firstName.value != "" ==> r[0] == firstName.value[0]
    ensures lastName.Some? && lastName.value != "" ==> r[|r| - 1] == lastName.value[0]
  {
    FirstChar(firstName) + FirstChar(lastName)
  }

  /** `toUpperCase` on one character, for the ASCII letters. */
  function UpperChar(c: char): (r: char)
    ensures 'a' <= c <= 'z' ==> r as int == c as int - 32
    ensures !('a' <= c <= 'z') ==> r == c
  {
    if 'a' <= c <= 'z' then (c as int - 32) as char else c
  }

  function Upper(s: string): (r: string)
    ensures |r| == |s|
    ensures forall i | 0 <= i < |s| :: r[i] == UpperChar(s[i])
  {
    if s == [] then [] else [UpperChar(s[0])] + Upper(s[1..])
  }

  /** `role?.toUpperCase()`, with nothing shown for a missing role. */
  function RoleLabel(role: Option<string>): (r: string)
    ensures role.None? ==> r == ""
    ensures role.Some? ==> |r| == |role.value|
    ensures role.Some? ==> forall i | 0 <= i < |r| :: r[i] == UpperChar(role.value[i])
    ensures forall i | 0 <= i < |r| :: !('a' <= r[i] <= 'z')
  {
    match role
    case None => ""
    case Some(s) => Upper(s)
  }

  /** Upper-casing twice is upper-casing once. */
  lemma {:induction false} UpperIdempotent(s: string)
    ensures Upper(Upper(s)) == Upper(s)
  {
    if s != [] {
      UpperIdempotent(s[1..]);
      assert Upper(s)[1..] == Upper(s[1..]);
    }
  }

  /** The labels of the three roles. */
  lemma RoleLabels()
    ensures RoleLabel(Some("superadmin")) == "SUPERADMIN"
    ensures RoleLabel(Some("admin")) == "ADMIN"
    ensures RoleLabel(Some("user")) == "USER"
  {
    UpperIs("superadmin", "SUPERADMIN");
    UpperIs("admin", "ADMIN");
    UpperIs("user", "USER");
  }

  lemma UpperIs(s: string, t: string)
    requires |s| == |t| && forall i | 0 <= i < |s| :: UpperChar(s[i]) == t[i]
    ensures Upper(s) == t
  {
  }
}
