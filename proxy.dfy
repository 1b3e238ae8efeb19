/** The routing decision in front of the coordinator pages (proxy.ts): a
    function of the path, whether a `coord_session` cookie is present and
    the `coord_type` cookie, giving either pass-through or a redirect (with
    the cookies the redirect deletes).  The proxy runs only on the paths its
    matcher names. */
module Proxy {
  import opened Common

  const Root := "/"
  const Dashboard := "/coordinator"
  const Overview := "/coordinator/overview"
  const LoginPage := "/coordinator/login"
  const MainLoginPage := "/coordinator/main-login"

  /** The cookies deleted on the no-session redirect. */
  const SessionCookies := ["coord_session", "coord_event", "coord_type"]

  datatype Decision = Pass | Redirect(to: string, deleted: seq<string>)

  /** `coordType?.value === 'main'` */
  predicate IsMain(coordType: Option<string>) {
    coordType == Some("main")
  }

  /** `proxy(request)` */
  function Decide(path: string, hasSession: bool, coordType: Option<string>): (d: Decision)
    ensures d.Redirect? ==> d.to in {Overview, Dashboard, LoginPage}
    ensures d.Redirect? && d.deleted != [] ==> d == Redirect(LoginPage, SessionCookies)
  {
    if path == Root then
      if hasSession then
        if IsMain(coordType) then Redirect(Overview, []) else Redirect(Dashboard, [])
      else Redirect(LoginPage, [])
    else if path == LoginPage || path == MainLoginPage then Pass
    else if StartsWith(path, "/coordinator") && !hasSession then Redirect(LoginPage, SessionCookies)
    else if IsMain(coordType) && path == Dashboard && hasSession then Redirect(Overview, [])
    else if !IsMain(coordType) && path == Overview && hasSession then Redirect(Dashboard, [])
    else if path == Dashboard && hasSession && IsMain(coordType) then Redirect(Overview, [])
    else if path == LoginPage && hasSession then
      if IsMain(coordType) then Redirect(Overview, []) else Redirect(Dashboard, [])
    else if path == MainLoginPage && hasSession then
      if IsMain(coordType) then Redirect(Overview, []) else Redirect(Dashboard, [])
    else Pass
  }

  /** `config.matcher`: "/" and "/coordinator/:path*" (the bare
      "/coordinator" and everything below it). */
  predicate Matched(path: string) {
    path == Root || path == Dashboard || StartsWith(path, "/coordinator/")
  }

  /** What a request sees: paths outside the matcher are never proxied. */
  function Route(path: string, hasSession: bool, coordType: Option<string>): (d: Decision)
    ensures !Matched(path) ==> d == Pass
  {
    if Matched(path) then Decide(path, hasSession, coordType) else Pass
  }

  // ------------------------------------------------------------- properties

  /** "/" always redirects: to the overview for a main session, to the
      event dashboard for any other session, to the login page without. */
  lemma RootRedirects(hasSession: bool, coordType: Option<string>)
    ensures Route(Root, hasSession, coordType) ==
              if !hasSession then Redirect(LoginPage, [])
              else if IsMain(coordType) then Redirect(Overview, [])
              else Redirect(Dashboard, [])
  {
  }

  /** Both login pages always pass, so the later redirects of logged-in
      visitors away from them never fire. */
  lemma LoginPagesAlwaysPass(hasSession: bool, coordType: Option<string>)
    ensures Route(LoginPage, hasSession, coordType) == Pass
    ensures Route(MainLoginPage, hasSession, coordType) == Pass
  {
  }

  /** Without a session every other coordinator page redirects to the login
      page and deletes the three session cookies. */
  lemma NoSessionIsSentToLogin(path: string, coordType: Option<string>)
    requires Matched(path) && path != Root && path != LoginPage && path != MainLoginPage
    ensures Route(path, false, coordType) == Redirect(LoginPage, SessionCookies)
  {
    if path != Dashboard {
      assert path[..|"/coordinator"|] == "/coordinator/"[..|"/coordinator"|];
    }
  }

  /** With a session, exactly two pages redirect: a main coordinator on the
      event dashboard goes to the overview, and any other coordinator on
      the overview goes to the dashboard. */
  lemma SessionRedirects(path: string, coordType: Option<string>)
    requires path != Root
    ensures Route(path, true, coordType).Redirect? <==>
              (path == Dashboard && IsMain(coordType)) || (path == Overview && !IsMain(coordType))
    ensures path == Dashboard && IsMain(coordType) ==> Route(path, true, coordType) == Redirect(Overview, [])
    ensures path == Overview && !IsMain(coordType) ==> Route(path, true, coordType) == Redirect(Dashboard, [])
  {
  }

  /** A redirect never leads to another redirect: the target passes with
      the cookies the redirect leaves. */
  lemma NoRedirectChains(path: string, hasSession: bool, coordType: Option<string>)
    requires Route(path, hasSession, coordType).Redirect?
    ensures var d := Route(path, hasSession, coordType);
            var session := hasSession && d.deleted == [];
            var kind := if d.deleted == [] then coordType else None;
            Route(d.to, session, kind) == Pass
  {
  }
}
