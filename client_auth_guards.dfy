/** The client's per-route guards: `requireAuth`, which sends a visitor to
    the first setup step a route needs and they lack, the token-refreshing
    guard, and the guard that keeps signed-in users off guest pages. */
module AuthGuards {
  import opened Common
  import opened Navigation

  function ToLogin(fullPath: string): Decision {
    RedirectTo("login", Some(fullPath))
  }

  /** `requireAuth(to, from, next)`, for a target with full path
      `fullPath` and meta `meta`. */
  function RequireAuth(fullPath: string, meta: Meta, s: AuthState): Decision {
    if !s.isAuthenticated then ToLogin(fullPath)
    else if meta.requiresEmailVerification && !s.isEmailVerified then RedirectTo("verify-email", None)
    else if meta.requiresSimVerification && !s.isSimVerified then RedirectTo("verify-sim", None)
    else if meta.requiresMailAccount && !s.hasMailAccount then RedirectTo("setup-mail", None)
    else if meta.requiresHomeDir && !s.hasHomeDir then RedirectTo("setup-home", None)
    else Proceed
  }

  /** One setup requirement: whether the route asks for it, whether the
      user meets it, and the page that fixes it. */
  datatype Check = Check(required: bool, met: bool, page: string)

  /** The requirements in the order they are checked. */
  function Checks(meta: Meta, s: AuthState): seq<Check> {
    [Check(meta.requiresEmailVerification, s.isEmailVerified, "verify-email"),
     Check(meta.requiresSimVerification, s.isSimVerified, "verify-sim"),
     Check(meta.requiresMailAccount, s.hasMailAccount, "setup-mail"),
     Check(meta.requiresHomeDir, s.hasHomeDir, "setup-home")]
  }

  /** The page of the first required check that is not met, if any. */
  function FirstFailing(cs: seq<Check>): (r: Option<string>)
    ensures r.None? <==> forall i :: 0 <= i < |cs| ==> (cs[i].required ==> cs[i].met)
    ensures r.Some? ==> exists i :: 0 <= i < |cs| && cs[i].required && !cs[i].met && cs[i].page == r.value &&
                                    forall j :: 0 <= j < i ==> (cs[j].required ==> cs[j].met)
  {
    if cs == [] then None
    else if cs[0].required && !cs[0].met then Some(cs[0].page)
    else
      var r := FirstFailing(cs[1..]);
      assert forall i :: 1 <= i < |cs| ==> cs[i] == cs[1..][i - 1];
      if r.Some? then
        var i :| 0 <= i < |cs[1..]| && cs[1..][i].required && !cs[1..][i].met && cs[1..][i].page == r.value &&
                 forall j :: 0 <= j < i ==> (cs[1..][j].required ==> cs[1..][j].met);
        assert cs[i + 1] == cs[1..][i];
        r
      else r
  }

  /** An unauthenticated visitor goes to login, carrying the target, before
      any setup check is looked at. */
  lemma UnauthenticatedGoesToLogin(fullPath: string, meta: Meta, s: AuthState)
    requires !s.isAuthenticated
    ensures RequireAuth(fullPath, meta, s) == RedirectTo("login", Some(fullPath))
  {
  }

  /** For a signed-in user the guard is the first failing check, in the
      order email, SIM, mail account, home directory; it lets the user
      through exactly when every check the route asks for is met. */
  lemma {:induction false} RequireAuthIsFirstFailingCheck(fullPath: string, meta: Meta, s: AuthState)
    requires s.isAuthenticated
    ensures var f := FirstFailing(Checks(meta, s));
      RequireAuth(fullPath, meta, s) == (if f.Some? then RedirectTo(f.value, None) else Proceed)
    ensures RequireAuth(fullPath, meta, s) == Proceed <==>
      forall i :: 0 <= i < 4 ==> (Checks(meta, s)[i].required ==> Checks(meta, s)[i].met)
  {
    var cs := Checks(meta, s);
    assert cs[1..] == [cs[1], cs[2], cs[3]];
    assert [cs[1], cs[2], cs[3]][1..] == [cs[2], cs[3]];
    assert [cs[2], cs[3]][1..] == [cs[3]];
    assert [cs[3]][1..] == [];
  }

  /** Asking for fewer setup steps never turns a pass into a redirect. */
  lemma FewerRequirementsStillPass(fullPath: string, meta: Meta, fewer: Meta, s: AuthState)
    requires fewer.requiresEmailVerification ==> meta.requiresEmailVerification
    requires fewer.requiresSimVerification ==> meta.requiresSimVerification
    requires fewer.requiresMailAccount ==> meta.requiresMailAccount
    requires fewer.requiresHomeDir ==> meta.requiresHomeDir
    requires RequireAuth(fullPath, meta, s) == Proceed
    ensures RequireAuth(fullPath, fewer, s) == Proceed
  {
  }

  /** How `authStore.refreshToken()` settled: with its result, or by
      throwing. */
  datatype Refresh = Refreshed(success: bool) | Threw

  /** `refreshTokenMiddleware(to, from, next)`: the decision and whether a
      refresh was attempted. */
  function RefreshTokenGuard(fullPath: string, s: AuthState, refresh: Refresh): (Decision, bool) {
    if !s.isAuthenticated then (Proceed, false)
    else if refresh == Refreshed(true) then (Proceed, true)
    else (ToLogin(fullPath), true)
  }

  /** No refresh is tried for a visitor; for a signed-in user the guard
      passes exactly when the refresh succeeds and otherwise sends the user
      to login carrying the target. */
  lemma RefreshTokenGuardDecides(fullPath: string, s: AuthState, refresh: Refresh)
    ensures var (d, tried) := RefreshTokenGuard(fullPath, s, refresh);
      (tried <==> s.isAuthenticated) &&
      (d == Proceed <==> !s.isAuthenticated || refresh == Refreshed(true)) &&
      (d != Proceed ==> d == RedirectTo("login", Some(fullPath)))
  {
  }

  /** `redirectIfAuthenticated(to, from, next)`. */
  function RedirectIfAuthenticated(s: AuthState): Decision {
    if s.isAuthenticated then RedirectTo("dashboard", None) else Proceed
  }

  /** Signed-in users go to the dashboard; everyone else passes. */
  lemma RedirectIfAuthenticatedDecides(s: AuthState)
    ensures RedirectIfAuthenticated(s) == Proceed <==> !s.isAuthenticated
    ensures RedirectIfAuthenticated(s) != Proceed ==> RedirectIfAuthenticated(s) == RedirectTo("dashboard", None)
  {
  }
}
