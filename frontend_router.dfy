/** The frontend application's router: a flat route table with guest-only
    sign-in and password pages and a protected dashboard, and a navigation
    guard that reads `to.meta`. The router merges into `to.meta` the meta of
    every record the target matched; the table has no nested routes, so a
    target matches one record and its merged meta is that record's own. */
module FrontendRouter {
  import opened Common
  import opened Navigation

  const Routes: seq<RouteRecord> := [
    RouteRecord("/", Some("home"), None, NoMeta, []),
    RouteRecord("/login", Some("login"), None, GuestOnly, []),
    RouteRecord("/register", Some("register"), None, GuestOnly, []),
    RouteRecord("/verify-email", Some("verify-email"), None, GuestOnly, []),
    RouteRecord("/forgot-password", Some("forgot-password"), None, GuestOnly, []),
    RouteRecord("/reset-password/:token", Some("reset-password"), None, GuestOnly, []),
    RouteRecord("/dashboard", Some("dashboard"), None, AuthOnly, [])
  ]

  function Entries(): seq<Resolved> {
    Flatten(Routes, "", [])
  }

  const GuestPages: set<Option<string>> :=
    {Some("login"), Some("register"), Some("verify-email"), Some("forgot-password"), Some("reset-password")}

  /** Each location matches its own record only; the dashboard is the one
      protected route, and the sign-in and password pages are the guest-only
      ones. */
  lemma RouteTableMeta()
    ensures |Entries()| == |Routes|
    ensures forall i :: 0 <= i < |Entries()| ==>
      |Entries()[i].matched| == 1 &&
      (Entries()[i].matched[0].requiresAuth <==> Entries()[i].name == Some("dashboard")) &&
      (Entries()[i].matched[0].requiresGuest <==> Entries()[i].name in GuestPages) &&
      !(Entries()[i].matched[0].requiresAuth && Entries()[i].matched[0].requiresGuest)
  {
    FlattenFlat(Routes);
  }

  /** The `beforeEach` guard, on the target's `meta`. */
  function BeforeEach(meta: Meta, isAuthenticated: bool): Decision {
    if meta.requiresAuth && !isAuthenticated then RedirectTo("login", None)
    else if meta.requiresGuest && isAuthenticated then RedirectTo("dashboard", None)
    else Proceed
  }

  /** A protected route sends a visitor to login, with no redirect query; a
      guest route sends a signed-in user to the dashboard; the protected
      check comes first, and everything else proceeds. */
  lemma BeforeEachDecides(meta: Meta, isAuthenticated: bool)
    ensures var d := BeforeEach(meta, isAuthenticated);
      (d == RedirectTo("login", None) <==> meta.requiresAuth && !isAuthenticated) &&
      (d == RedirectTo("dashboard", None) <==>
         meta.requiresGuest && isAuthenticated && !(meta.requiresAuth && !isAuthenticated)) &&
      (d == Proceed <==>
         !(meta.requiresAuth && !isAuthenticated) && !(meta.requiresGuest && isAuthenticated))
  {
  }

  /** The two pages the guard redirects to. */
  lemma RedirectTargets()
    ensures Named(Entries(), "login") == Some(Resolved("/login", Some("login"), None, [GuestOnly]))
    ensures Named(Entries(), "dashboard") == Some(Resolved("/dashboard", Some("dashboard"), None, [AuthOnly]))
  {
    FlattenFlat(Routes);
    var e := Entries();
    assert e[1] == Resolved("/login", Some("login"), None, [GuestOnly]);
    assert e[6] == Resolved("/dashboard", Some("dashboard"), None, [AuthOnly]);
    NamedFirst(e, 1, "login");
    NamedFirst(e, 6, "dashboard");
  }

  /** Where the guard redirects, it lets the same user through. */
  lemma RedirectsSettle(meta: Meta, isAuthenticated: bool)
    ensures var d := BeforeEach(meta, isAuthenticated);
      d.RedirectTo? ==>
        Named(Entries(), d.name).Some? &&
        BeforeEach(OwnMeta(Named(Entries(), d.name).value), isAuthenticated) == Proceed
  {
    RedirectTargets();
  }
}
