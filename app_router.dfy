/** The root client application's router: its route table (guest-only
    sign-in pages nested under `/auth`, a protected dashboard), its scroll
    rule and its global navigation guard. */
module AppRouter {
  import opened Common
  import opened Navigation

  const Login := RouteRecord("login", Some("login"), None, GuestOnly, [])
  const Register := RouteRecord("register", Some("register"), None, GuestOnly, [])
  const VerifyEmail := RouteRecord("verify-email", Some("verify-email"), None, GuestOnly, [])
  const Auth := RouteRecord("/auth", None, Some("/auth/login"), NoMeta, [Login, Register, VerifyEmail])
  const Dashboard := RouteRecord("/dashboard", Some("dashboard"), None, AuthOnly, [])

  const Routes: seq<RouteRecord> := [
    RouteRecord("/", Some("home"), None, NoMeta, []),
    RouteRecord("/features", Some("features"), None, NoMeta, []),
    RouteRecord("/about", Some("about"), None, NoMeta, []),
    RouteRecord("/contact", Some("contact"), None, NoMeta, []),
    Auth,
    Dashboard
  ]

  /** Every location the table declares, with the meta of its records. */
  function Entries(): seq<Resolved> {
    Flatten(Routes, "", [])
  }

  /** The locations the table declares, as the router resolves them. */
  const ResolvedTable: seq<Resolved> := [
      Resolved("/", Some("home"), None, [NoMeta]),
      Resolved("/features", Some("features"), None, [NoMeta]),
      Resolved("/about", Some("about"), None, [NoMeta]),
      Resolved("/contact", Some("contact"), None, [NoMeta]),
      Resolved("/auth", None, Some("/auth/login"), [NoMeta]),
      Resolved("/auth/login", Some("login"), None, [NoMeta, GuestOnly]),
      Resolved("/auth/register", Some("register"), None, [NoMeta, GuestOnly]),
      Resolved("/auth/verify-email", Some("verify-email"), None, [NoMeta, GuestOnly]),
      Resolved("/dashboard", Some("dashboard"), None, [AuthOnly])]

  lemma AuthChildPaths()
    ensures FullPath("/auth", "login") == "/auth/login"
    ensures FullPath("/auth", "register") == "/auth/register"
    ensures FullPath("/auth", "verify-email") == "/auth/verify-email"
  {
  }

  /** The sign-in pages sit under `/auth`, behind its own (empty) meta. */
  lemma AuthEntries()
    ensures Flatten(Auth.children, "/auth", [NoMeta]) == [
      Resolved("/auth/login", Some("login"), None, [NoMeta, GuestOnly]),
      Resolved("/auth/register", Some("register"), None, [NoMeta, GuestOnly]),
      Resolved("/auth/verify-email", Some("verify-email"), None, [NoMeta, GuestOnly])]
  {
    AuthChildPaths();
    var under := [NoMeta];
    assert under + [GuestOnly] == [NoMeta, GuestOnly];
    FlattenCons(VerifyEmail, [], "/auth", under);
    FlattenCons(Register, [VerifyEmail], "/auth", under);
    FlattenCons(Login, [Register, VerifyEmail], "/auth", under);
    assert [Login] + [Register, VerifyEmail] == Auth.children;
    assert [Register] + [VerifyEmail] == [Register, VerifyEmail];
    assert [VerifyEmail] + [] == [VerifyEmail];
  }

  /** The table resolved; a visit to `/auth` itself is sent on to
      `/auth/login`. */
  lemma EntriesAre()
    ensures Entries() == ResolvedTable
  {
    AuthEntries();
    var rs := Routes;
    var none: seq<Meta> := [];
    assert none + [NoMeta] == [NoMeta] && none + [AuthOnly] == [AuthOnly];
    assert rs[5..] == [Dashboard] + [];
    assert rs[4..] == [Auth] + rs[5..];
    assert rs[3..] == [rs[3]] + rs[4..];
    assert rs[2..] == [rs[2]] + rs[3..];
    assert rs[1..] == [rs[1]] + rs[2..];
    assert rs == [rs[0]] + rs[1..];
    FlattenCons(Dashboard, [], "", none);
    var d := Flatten(rs[5..], "", none);
    assert d == [Resolved("/dashboard", Some("dashboard"), None, [AuthOnly])];
    FlattenCons(Auth, rs[5..], "", none);
    var a := Flatten(rs[4..], "", none);
    assert a == [Resolved("/auth", None, Some("/auth/login"), [NoMeta])] +
      Flatten(Auth.children, "/auth", [NoMeta]) + d;
    FlattenCons(rs[3], rs[4..], "", none);
    FlattenCons(rs[2], rs[3..], "", none);
    FlattenCons(rs[1], rs[2..], "", none);
    FlattenCons(rs[0], rs[1..], "", none);
  }

  /** Guest-only are exactly login, register and verify-email; only the
      dashboard needs authentication. */
  lemma RouteTableMeta()
    ensures forall i :: 0 <= i < |Entries()| ==>
      (AnyHas(Entries()[i].matched, GuestFlag) <==>
         Entries()[i].name in {Some("login"), Some("register"), Some("verify-email")}) &&
      (AnyHas(Entries()[i].matched, AuthFlag) <==> Entries()[i].name == Some("dashboard"))
  {
    EntriesAre();
  }

  /** A saved scroll position (`savedPosition`). */
  datatype Position = Position(left: int, top: int)

  /** Where `scrollBehavior` scrolls to. */
  datatype Scroll = Restore(saved: Position) | ToElement(el: string, behavior: string) | ToTop(top: int)

  /** `scrollBehavior(to, from, savedPosition)`, for a target with hash `hash`. */
  function ScrollBehavior(hash: string, saved: Option<Position>): Scroll {
    if saved.Some? then Restore(saved.value)
    else if hash != "" then ToElement(hash, "smooth")
    else ToTop(0)
  }

  /** A saved position wins; otherwise a hash is scrolled to smoothly;
      otherwise the page goes to the top. */
  lemma ScrollBehaviorDecides(hash: string, saved: Option<Position>)
    ensures var r := ScrollBehavior(hash, saved);
      (r.Restore? <==> saved.Some?) && (r.Restore? ==> r.saved == saved.value) &&
      (r.ToElement? <==> saved.None? && hash != "") && (r.ToElement? ==> r == ToElement(hash, "smooth")) &&
      (r.ToTop? <==> saved.None? && hash == "") && (r.ToTop? ==> r.top == 0)
  {
  }

  /** The global `beforeEach` guard: the decision, and whether the user was
      loaded. `authenticatedAfterLoad` is what the store reports once
      `loadUser` has settled. */
  function BeforeEach(to: Resolved, s: AuthState, authenticatedAfterLoad: bool): (Decision, bool) {
    var load := s.isAuthenticated && !s.userLoaded;
    var authed := if load then authenticatedAfterLoad else s.isAuthenticated;
    var decision :=
      if AnyHas(to.matched, AuthFlag) && !authed then RedirectTo("login", Some(to.fullPath))
      else if AnyHas(to.matched, GuestFlag) && authed then RedirectTo("dashboard", None)
      else Proceed;
    (decision, load)
  }

  /** The user is loaded exactly when signed in and not loaded yet; a
      protected route sends a visitor to login carrying the target, a
      guest route sends a signed-in user to the dashboard, and everything
      else proceeds. */
  lemma BeforeEachDecides(to: Resolved, s: AuthState, authenticatedAfterLoad: bool)
    ensures var (d, loaded) := BeforeEach(to, s, authenticatedAfterLoad);
      var authed := if loaded then authenticatedAfterLoad else s.isAuthenticated;
      (loaded <==> s.isAuthenticated && !s.userLoaded) &&
      (d == RedirectTo("login", Some(to.fullPath)) <==>
         (exists i :: 0 <= i < |to.matched| && to.matched[i].requiresAuth) && !authed) &&
      (d == RedirectTo("dashboard", None) <==>
         (exists i :: 0 <= i < |to.matched| && to.matched[i].requiresGuest) && authed) &&
      (d == Proceed || d == RedirectTo("login", Some(to.fullPath)) || d == RedirectTo("dashboard", None))
  {
    assert forall i :: 0 <= i < |to.matched| ==> (Has(to.matched[i], AuthFlag) == to.matched[i].requiresAuth);
    assert forall i :: 0 <= i < |to.matched| ==> (Has(to.matched[i], GuestFlag) == to.matched[i].requiresGuest);
  }

  lemma LoginInTable(t: seq<Resolved>)
    requires t == ResolvedTable
    ensures Named(t, "login") == Some(t[5])
  {
    forall j | 0 <= j < 5
      ensures t[j].name != Some("login")
    {
      if j == 0 {
        assert t[0].name == Some("home") && |"home"| != |"login"|;
      } else if j == 1 {
        assert t[1].name == Some("features") && |"features"| != |"login"|;
      } else if j == 2 {
        assert t[2].name == Some("about") && "about"[0] != "login"[0];
      } else if j == 3 {
        assert t[3].name == Some("contact") && |"contact"| != |"login"|;
      } else if j == 4 {
        assert t[4].name == None;
      }
    }
    NamedFirst(t, 5, "login");
  }

  lemma DashboardInTable(t: seq<Resolved>)
    requires t == ResolvedTable
    ensures Named(t, "dashboard") == Some(t[8])
  {
    forall j | 0 <= j < 8
      ensures t[j].name != Some("dashboard")
    {
      if j == 0 {
        assert t[0].name == Some("home") && |"home"| != |"dashboard"|;
      } else if j == 1 {
        assert t[1].name == Some("features") && |"features"| != |"dashboard"|;
      } else if j == 2 {
        assert t[2].name == Some("about") && |"about"| != |"dashboard"|;
      } else if j == 3 {
        assert t[3].name == Some("contact") && |"contact"| != |"dashboard"|;
      } else if j == 4 {
        assert t[4].name == None;
      } else if j == 5 {
        assert t[5].name == Some("login") && |"login"| != |"dashboard"|;
      } else if j == 6 {
        assert t[6].name == Some("register") && |"register"| != |"dashboard"|;
      } else if j == 7 {
        assert t[7].name == Some("verify-email") && |"verify-email"| != |"dashboard"|;
      }
    }
    NamedFirst(t, 8, "dashboard");
  }

  /** The two pages the guard redirects to. */
  lemma RedirectTargets()
    ensures Named(Entries(), "login") == Some(Resolved("/auth/login", Some("login"), None, [NoMeta, GuestOnly]))
    ensures Named(Entries(), "dashboard") == Some(Resolved("/dashboard", Some("dashboard"), None, [AuthOnly]))
  {
    EntriesAre();
    LoginInTable(Entries());
    DashboardInTable(Entries());
  }

  /** Where a guard redirect lands, the guard lets the same user through
      (once the user is loaded): navigation settles after one redirect. */
  lemma RedirectsSettle(to: Resolved, s: AuthState, authenticatedAfterLoad: bool)
    requires s.userLoaded || !s.isAuthenticated
    ensures var d := BeforeEach(to, s, authenticatedAfterLoad).0;
      d.RedirectTo? ==>
        Named(Entries(), d.name).Some? &&
        BeforeEach(Named(Entries(), d.name).value, s, authenticatedAfterLoad).0 == Proceed
  {
    RedirectTargets();
    var login := Resolved("/auth/login", Some("login"), None, [NoMeta, GuestOnly]);
    var dashboard := Resolved("/dashboard", Some("dashboard"), None, [AuthOnly]);
    assert AnyHas(login.matched, GuestFlag) && !AnyHas(login.matched, AuthFlag) by {
      assert Has(login.matched[1], GuestFlag);
    }
    assert AnyHas(dashboard.matched, AuthFlag) && !AnyHas(dashboard.matched, GuestFlag) by {
      assert Has(dashboard.matched[0], AuthFlag);
    }
  }

  /** A visitor asking for the dashboard is sent to login, carrying
      `/dashboard`; a signed-in user asking for a sign-in page is sent to
      the dashboard. */
  lemma TableGuarded(s: AuthState, authenticatedAfterLoad: bool)
    requires s.userLoaded || !s.isAuthenticated
    ensures Named(Entries(), "dashboard").Some? && Named(Entries(), "login").Some?
    ensures !s.isAuthenticated ==>
      BeforeEach(Named(Entries(), "dashboard").value, s, authenticatedAfterLoad).0 == RedirectTo("login", Some("/dashboard"))
    ensures s.isAuthenticated ==>
      BeforeEach(Named(Entries(), "login").value, s, authenticatedAfterLoad).0 == RedirectTo("dashboard", None)
  {
    RedirectTargets();
    var login := Resolved("/auth/login", Some("login"), None, [NoMeta, GuestOnly]);
    var dashboard := Resolved("/dashboard", Some("dashboard"), None, [AuthOnly]);
    assert AnyHas(login.matched, GuestFlag) by {
      assert Has(login.matched[1], GuestFlag);
    }
    assert AnyHas(dashboard.matched, AuthFlag) by {
      assert Has(dashboard.matched[0], AuthFlag);
    }
  }
}
