/** The account area: the highlighted sidebar tab, which sub-page each route shows depending on
    whether someone is signed in, and sign-out. */
module AccountPage {
  import opened Strings
  import opened Store

  /** The tabs the URL can select. */
  const PathTabs: seq<string> := ["profile", "orders", "wishlist"]

  /** The tab highlighted when the page first renders. */
  const InitialTab := "profile"

  /** The effect on `location` change: the path's last segment becomes the tab when it names one
      of the three tabs; otherwise the tab stays as it was. */
  function ResolveTab(pathname: string, activeTab: string): (r: string)
    ensures r == activeTab || r in PathTabs
    ensures r != activeTab ==> r == pathname || (|r| < |pathname| && pathname[|pathname| - |r| - 1..] == "/" + r)
  {
    var path := LastSegment(pathname);
    if path != "" && path in PathTabs then path else activeTab
  }

  /** A path ending in `/profile`, `/orders` or `/wishlist` selects that tab, whatever was
      highlighted before. */
  lemma ResolveTabFromPath(prefix: string, tab: string, activeTab: string)
    requires tab in PathTabs
    ensures ResolveTab(prefix + "/" + tab, activeTab) == tab
  {
    NoSlashInTabs(tab);
    LastSegmentOfPath(prefix, tab);
  }

  /** A path ending in `/` selects nothing. */
  lemma TrailingSlashKeepsTab(prefix: string, activeTab: string)
    ensures ResolveTab(prefix + "/", activeTab) == activeTab
  {
    LastSegmentOfPath(prefix, "");
    assert prefix + "/" + "" == prefix + "/";
  }

  lemma NoSlashInTabs(tab: string)
    requires tab in PathTabs
    ensures '/' !in tab
  {
    if tab == "profile" {
    } else if tab == "orders" {
    } else {
      assert tab == "wishlist";
    }
  }

  /** The URL never selects the payment or settings tabs; only a click does. */
  lemma UrlNeverSelectsPaymentOrSettings(pathname: string, activeTab: string)
    requires activeTab in PathTabs
    ensures ResolveTab(pathname, activeTab) in PathTabs
    ensures ResolveTab(pathname, activeTab) != "payment" && ResolveTab(pathname, activeTab) != "settings"
  {
    var r := ResolveTab(pathname, activeTab);
    assert r == "profile" || r == "orders" || r == "wishlist";
    assert r[0] != 'p' || r[1] != 'a';
    assert r[0] != 's';
  }

  /** A click on a sidebar link highlights that link's tab, including payment and settings. */
  function ClickTab(tab: string): (r: string)
    ensures r == tab
  {
    tab
  }

  datatype SubPage = LoginView | RegisterView | ProfileView | OrdersView | WishlistView

  /** The path with its trailing slashes removed: the router lets any number of them follow a
      route's own path. */
  function TrimTrailingSlashes(s: string): (r: string)
    ensures |r| <= |s| && r == s[..|r|]
    ensures r == [] || r[|r| - 1] != '/'
    ensures forall i :: |r| <= i < |s| ==> s[i] == '/'
    decreases |s|
  {
    if s != [] && s[|s| - 1] == '/' then TrimTrailingSlashes(s[..|s| - 1]) else s
  }

  /** What the router compares with a route's path: without trailing slashes and, as route
      paths are not case-sensitive, lower-cased. */
  function RouteKey(subpath: string): string {
    Lower(TrimTrailingSlashes(subpath))
  }

  /** The nested routes under `/account/`, given the rest of the path: signed out, only
      `register` shows the registration form and every other path the login form; signed in,
      the three tab routes show their pages and any other path (payment and settings included)
      the profile. */
  function Route(isAuthenticated: bool, subpath: string): (v: SubPage)
    ensures !isAuthenticated ==> (v == RegisterView <==> RouteKey(subpath) == "register")
    ensures !isAuthenticated ==> v in {LoginView, RegisterView}
    ensures isAuthenticated ==> v !in {LoginView, RegisterView}
    ensures isAuthenticated ==> (v == OrdersView <==> RouteKey(subpath) == "orders")
    ensures isAuthenticated ==> (v == WishlistView <==> RouteKey(subpath) == "wishlist")
  {
    var key := RouteKey(subpath);
    if !isAuthenticated then
      if key == "login" then LoginView
      else if key == "register" then RegisterView
      else LoginView
    else
      if key == "profile" then ProfileView
      else if key == "orders" then OrdersView
      else if key == "wishlist" then WishlistView
      else ProfileView
  }

  /** Case and trailing slashes do not change the page shown. */
  lemma {:induction false} RouteIgnoresCaseAndSlashes(isAuthenticated: bool, subpath: string)
    ensures Route(isAuthenticated, subpath + "/") == Route(isAuthenticated, subpath)
    ensures Route(isAuthenticated, Lower(subpath)) == Route(isAuthenticated, subpath)
  {
    var t := subpath + "/";
    assert t[..|t| - 1] == subpath;
    TrimLower(subpath);
  }

  /** Lower-casing keeps the slashes where they were, so it commutes with trimming them. */
  lemma {:induction false} TrimLower(s: string)
    ensures TrimTrailingSlashes(Lower(s)) == Lower(TrimTrailingSlashes(s))
    ensures Lower(TrimTrailingSlashes(Lower(s))) == Lower(TrimTrailingSlashes(s))
    decreases |s|
  {
    var l := Lower(s);
    if s != [] && s[|s| - 1] == '/' {
      assert l[..|l| - 1] == Lower(s[..|s| - 1]);
      TrimLower(s[..|s| - 1]);
    } else if s != [] {
      assert l[|l| - 1] != '/';
    }
    LowerIdempotent(TrimTrailingSlashes(s));
  }

  /** A lower-case path without a trailing slash is its own key. */
  lemma PlainKey(s: string)
    requires s == [] || s[|s| - 1] != '/'
    requires forall i :: 0 <= i < |s| ==> !IsUpper(s[i])
    ensures Lower(s) == s && RouteKey(s) == s
  {
    assert TrimTrailingSlashes(s) == s;
    assert Lower(s) == s;
  }

  /** The highlighted tab and the page shown can disagree: `/account/orders/` shows the orders
      page while the tab highlighted before stays. */
  lemma TrailingSlashDisagrees()
    ensures Route(true, "orders/") == OrdersView && ResolveTab("/account/orders/", InitialTab) == InitialTab
  {
    var t := "orders/";
    assert t[..|t| - 1] == "orders";
    PlainKey("orders");
    TrailingSlashKeepsTab("/account/orders", InitialTab);
    assert "/account/orders" + "/" == "/account/orders/";
  }

  /** The router ignores case: `/account/Orders` shows the orders page. */
  lemma CaseShowsOrders()
    ensures RouteKey("Orders") == "orders"
    ensures Route(true, "Orders") == OrdersView
  {
    var t := "Orders";
    assert TrimTrailingSlashes(t) == t;
    assert t == ['O'] + "rders";
    PlainKey("rders");
    assert Lower(t) == [LowerChar('O')] + Lower("rders");
  }

  /** The tab effect does not ignore case: at `/account/Orders` the tab highlighted before
      stays, so it can disagree with the page shown. */
  lemma CaseKeepsTab()
    ensures ResolveTab("/account/Orders", InitialTab) == InitialTab
  {
    var t := "Orders";
    LastSegmentOfPath("/account", t);
    assert "/account" + "/" + t == "/account/Orders";
    assert t !in PathTabs by {
      assert t[0] == 'O';
    }
  }

  /** The payment and settings links highlight their own tab but show the profile page. */
  lemma PaymentAndSettingsShowProfile()
    ensures Route(true, "payment") == ProfileView && Route(true, "settings") == ProfileView
    ensures ClickTab("payment") !in PathTabs
  {
    PlainKey("payment");
    PlainKey("settings");
  }

  /** `handleLogout`: sign out, then go to the home page. */
  function HandleLogout(): (e: seq<Effect>)
    ensures e == [Logout, Navigate("/")]
  {
    [Logout, Navigate("/")]
  }
}
