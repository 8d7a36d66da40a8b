/**
 * The route guard run in front of every matched request: signed-out visitors
 * are sent from the dashboard to the login page, signed-in users are sent from
 * the login and register pages to the dashboard, and everything else passes
 * through. The session lookup is a parameter (`signedIn`).
 */
module Middleware {

  /** The parts of the request URL a redirect can carry over. */
  datatype Url = Url(origin: string, pathname: string, search: string, hash: string)

  /** Pass the request on (with refreshed session cookies), or redirect. */
  datatype Response = Next | Redirect(location: Url)

  const DashboardPath := "/dashboard"
  const LoginPath := "/login"
  const RegisterPath := "/register"

  /** `path.startsWith('/dashboard')`: a raw prefix test, so it also covers
      paths such as `/dashboardX`. */
  predicate IsProtected(path: string) {
    DashboardPath <= path
  }

  /** `path.startsWith('/login') || path.startsWith('/register')`. */
  predicate IsAuthPage(path: string) {
    LoginPath <= path || RegisterPath <= path
  }

  /** A clone of `url` with only the pathname replaced. */
  function WithPathname(url: Url, path: string): Url {
    url.(pathname := path)
  }

  function Guard(url: Url, signedIn: bool): (r: Response)
    // a redirect keeps origin, query string and fragment, and changes only the pathname
    ensures r.Redirect? ==> r.location.origin == url.origin && r.location.search == url.search && r.location.hash == url.hash
    ensures r.Redirect? ==> r.location.pathname in {LoginPath, DashboardPath}
    ensures r.Redirect? && r.location.pathname == LoginPath <==> IsProtected(url.pathname) && !signedIn
    ensures r.Redirect? && r.location.pathname == DashboardPath <==> IsAuthPage(url.pathname) && signedIn
    ensures r == Next <==> !(IsProtected(url.pathname) && !signedIn) && !(IsAuthPage(url.pathname) && signedIn)
  {
    if IsProtected(url.pathname) && !signedIn then Redirect(WithPathname(url, LoginPath))
    else if IsAuthPage(url.pathname) && signedIn then Redirect(WithPathname(url, DashboardPath))
    else Next
  }

  /** No redirect loop: following a redirect with the same session state
      reaches a page the guard lets through. */
  lemma NoRedirectLoop(url: Url, signedIn: bool)
    requires Guard(url, signedIn).Redirect?
    ensures Guard(Guard(url, signedIn).location, signedIn) == Next
  {
    var target := Guard(url, signedIn).location;
    if signedIn {
      assert target.pathname == DashboardPath;
      assert !(LoginPath <= DashboardPath) && !(RegisterPath <= DashboardPath) by {
        assert DashboardPath[1] != LoginPath[1] && DashboardPath[1] != RegisterPath[1];
      }
    } else {
      assert target.pathname == LoginPath;
      assert !(DashboardPath <= LoginPath) by { assert |LoginPath| < |DashboardPath|; }
    }
  }

  /** The guard reads the path only through the two prefix tests: any path
      under `/dashboard`, such as `/dashboardX`, is guarded like `/dashboard`
      itself. */
  lemma PrefixGuardsExtensions(url: Url, suffix: string)
    requires url.pathname == DashboardPath + suffix
    ensures Guard(url, false) == Redirect(url.(pathname := LoginPath))
  {
    assert (DashboardPath + suffix)[..|DashboardPath|] == DashboardPath;
  }
}
